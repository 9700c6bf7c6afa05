/**
 What the FTP user manager accepts, prints and changes, said of the texts and lists themselves.
 */
module FtpMeaning {
  import opened Text
  import opened Ftp
  import opened FtpStore

  // ----- A printed line -----

  lemma TailFields(quota: string)
    requires Free(quota, ':')
    ensures SplitOn(quota + "::::::", ':') == [quota, "", "", "", "", "", ""]
  {
    var five := ":::::";
    assert quota + "::::::" == quota + (":" + five);
    Piece(quota, five);
    FiveColons(five);
    SevenFields(quota, SplitOn(five, ':'));
  }

  lemma FiveColons(s: string)
    requires s == ":::::"
    ensures SplitOn(s, ':') == ["", "", "", "", "", ""]
  {
    assert s == "" + (":" + s[1..]);
    Piece("", s[1..]);
    Piece("", s[2..]);
    Piece("", s[3..]);
    Piece("", s[4..]);
    Piece("", s[5..]);
    SplitWhole("", ':');
  }

  lemma SevenFields(quota: string, six: seq<string>)
    requires six == ["", "", "", "", "", ""]
    ensures [quota] + six == [quota, "", "", "", "", "", ""]
  {
  }

  /** The colon fields of a line, in the order the server reads them; a disabled user's line is a comment. */
  lemma LineFields(u: FTPUser, hash: string)
    requires Storable(u) && Free(hash, ':')
    ensures var fields := [u.name, hash, IntText(u.uid), IntText(u.gid), "", u.home,
                           IntText(u.upload), IntText(u.download), IntText(u.quota), "", "", "", "", "", ""];
            && (u.enabled ==> SplitOn(UserLine(u, hash), ':') == fields)
            && (!u.enabled ==> exists e :: UserLine(u, hash) == "# DISABLED: " + e && SplitOn(e, ':') == fields)
  {
    NameFacts(u.name);
    IntFieldBack(u.uid);
    IntFieldBack(u.gid);
    IntFieldBack(u.upload);
    IntFieldBack(u.download);
    IntFieldBack(u.quota);
    var up, down, quota := IntText(u.upload), IntText(u.download), IntText(u.quota);
    var rest := up + (":" + (down + (":" + (quota + "::::::"))));
    TailFields(quota);
    Piece(down, quota + "::::::");
    Piece(up, down + (":" + (quota + "::::::")));
    HomeFields(IntText(u.gid), u.home, rest);
    IdFields(u.name, hash, IntText(u.uid), IntText(u.gid) + ("::" + (u.home + (":" + rest))));
    FifteenFields(u.name, hash, IntText(u.uid), IntText(u.gid), u.home, up, down, quota);
    assert "" + Entry(u, hash) == Entry(u, hash);
  }

  lemma FifteenFields(name: string, hash: string, uid: string, gid: string, home: string, up: string, down: string, quota: string)
    ensures [name] + ([hash] + ([uid] + ([gid] + ([""] + ([home] + ([up] + ([down] + [quota, "", "", "", "", "", ""]))))))) ==
            [name, hash, uid, gid, "", home, up, down, quota, "", "", "", "", "", ""]
  {
  }

  // ----- A line written by hand -----

  /** The number a field stands for: a printed one itself, one too large the largest, and none is zero. */
  ghost predicate Reads(s: string, n: int) {
    || (Int64(n) && s == IntText(n))
    || (s != "" && AllDigits(s) && NumberOf(s) > MAX_INT && n == MAX_INT)
    || (n == 0 && (s == "" || exists i :: 0 <= i < |s| && !IsDigit(s[i]) && (i > 0 || (s[0] != '+' && s[0] != '-'))))
  }

  lemma ReadsIs(s: string, n: int)
    requires Reads(s, n)
    ensures IntField(s) == n
  {
    if Int64(n) && s == IntText(n) {
      IntFieldBack(n);
    } else if s != "" && AllDigits(s) && NumberOf(s) > MAX_INT && n == MAX_INT {
      assert IsDigit(s[0]);
    } else if s != "" {
      var i :| 0 <= i < |s| && !IsDigit(s[i]) && (i > 0 || (s[0] != '+' && s[0] != '-'));
      if s[0] == '+' || s[0] == '-' { assert s[1..][i - 1] == s[i]; }
    }
  }

  /**
   Any line of colon fields: fewer than six are no user; the name is the first, the home the
   sixth, and limits that are not there count as zero.
   */
  lemma ForeignLine(parts: seq<string>, line: string, uid: int, gid: int, upload: int, download: int, quota: int)
    requires parts != [] && AllFree(parts, ':') && line == Join(parts, ":") && Tight(line) && line != "" && line[0] != '#'
    requires |parts| >= 6 ==> Reads(parts[2], uid) && Reads(parts[3], gid)
    requires if |parts| >= 8 then Reads(parts[6], upload) && Reads(parts[7], download) else upload == download == 0
    requires if |parts| >= 9 then Reads(parts[8], quota) else quota == 0
    ensures |parts| < 6 ==> ParseLine(line) == None
    ensures |parts| >= 6 ==> ParseLine(line) == Some(FTPUser(parts[0], parts[5], uid, gid, upload, download, quota, true))
  {
    PlainLine(line);
    SplitJoin(parts, ':');
    FieldsToUser(parts, uid, gid, upload, download, quota);
  }

  lemma PlainLine(line: string)
    requires Tight(line) && line != "" && line[0] != '#'
    ensures ParseLine(line) == UserOf(SplitOn(line, ':'), true)
  {
    assert "" + line + "" == line;
    TrimPadded("", line, "");
    NoMark(line, DISABLED);
  }

  lemma FieldsToUser(parts: seq<string>, uid: int, gid: int, upload: int, download: int, quota: int)
    requires |parts| >= 6 ==> Reads(parts[2], uid) && Reads(parts[3], gid)
    requires if |parts| >= 8 then Reads(parts[6], upload) && Reads(parts[7], download) else upload == download == 0
    requires if |parts| >= 9 then Reads(parts[8], quota) else quota == 0
    ensures UserOf(parts, true) ==
            if |parts| < 6 then None else Some(FTPUser(parts[0], parts[5], uid, gid, upload, download, quota, true))
  {
    if |parts| >= 6 {
      ReadsIs(parts[2], uid);
      ReadsIs(parts[3], gid);
      if |parts| >= 8 {
        ReadsIs(parts[6], upload);
        ReadsIs(parts[7], download);
      }
      if |parts| >= 9 { ReadsIs(parts[8], quota); }
    }
  }

  lemma NoMark(line: string, mark: string)
    requires mark == DISABLED && line != "" && line[0] != '#'
    ensures !(mark <= line) && !("#" <= line)
  {
    assert mark[0] == '#';
  }

  // ----- What is refused -----

  /** Whether the visible part of a name is three to thirty-two letters, digits, underscores and dots. */
  predicate GoodName(name: string) {
    3 <= |Trim(name)| <= 32 && forall c :: c in Trim(name) ==> 'a' <= c <= 'z' || 'A' <= c <= 'Z' || '0' <= c <= '9' || c == '_' || c == '.'
  }

  /** The conditions checked before the file is read. */
  predicate Passes(op: Op) {
    match op
    case Create(name, password, _, homeOk, _, _, _) => GoodName(name) && homeOk && |password| >= 6
    case ChangePassword(_, password) => |password| >= 6
    case Modify(name, _, homeOk, _, _, _) => GoodName(name) && homeOk
    case _ => true
  }

  /** Some user of the list has the name, in whatever case. */
  ghost predicate Named(users: seq<FTPUser>, name: string) {
    exists u :: u in users && |u.name| == |name| && forall i :: 0 <= i < |name| ==> UpperChar(u.name[i]) == UpperChar(name[i])
  }

  lemma NamedIsKnown(users: seq<FTPUser>, name: string)
    ensures Named(users, name) <==> Known(users, name)
  {
    if Named(users, name) {
      var u :| u in users && |u.name| == |name| && forall i :: 0 <= i < |name| ==> UpperChar(u.name[i]) == UpperChar(name[i]);
      var k :| 0 <= k < |users| && users[k] == u;
      assert Upper(u.name) == Upper(name);
      assert EqualFold(users[k].name, name);
    }
    if Known(users, name) {
      var k :| 0 <= k < |users| && EqualFold(users[k].name, name);
      SameFold(users[k].name, name);
      assert users[k] in users;
    }
  }

  lemma SameFold(a: string, b: string)
    requires EqualFold(a, b)
    ensures |a| == |b| && forall i :: 0 <= i < |b| ==> UpperChar(a[i]) == UpperChar(b[i])
  {
    assert |Upper(a)| == |Upper(b)|;
    forall i | 0 <= i < |b| ensures UpperChar(a[i]) == UpperChar(b[i]) { assert Upper(a)[i] == Upper(b)[i]; }
  }

  lemma GoodNameIs(name: string)
    ensures ValidName(Trim(name)) <==> GoodName(name)
  {
    var t := Trim(name);
    assert forall i :: 0 <= i < |t| ==> t[i] in t;
  }

  /** Each answer, by what holds of the call, the file and the disk. */
  lemma AnswerIff(file: Option<string>, op: Op, disk: Disk)
    ensures var a := FileAnswer(file, op, disk);
            var known := Named(if disk.listOk then Loaded(file) else [], op.name);
            var works := Passes(op) && (op.Create? || disk.listOk);
            && (a == InvalidUser <==> (op.Create? || op.Modify?) && !(GoodName(op.name) && op.homeOk))
            && (a == ShortPassword <==> ((op.Create? && GoodName(op.name) && op.homeOk) || op.ChangePassword?) && |op.password| < 6)
            && (a == ReadFailed <==> Passes(op) && !disk.listOk && !op.Create?)
            && (a == AlreadyExists <==> works && op.Create? && known)
            && (a == NotFound <==> works && !op.Create? && !known)
            && (a == WriteFailed <==> works && known == !op.Create? && !disk.writeOk)
            && (a == Done <==> works && known == !op.Create? && disk.writeOk)
  {
    GoodNameIs(op.name);
    NamedIsKnown(Seen(file, disk), op.name);
  }

  // ----- What an operation does to the list -----

  /** The first user with the name, in whatever case. */
  predicate FirstWith(users: seq<FTPUser>, name: string, k: nat) {
    k < |users| && EqualFold(users[k].name, name) && forall i :: 0 <= i < k ==> !EqualFold(users[i].name, name)
  }

  /** A creation puts one enabled user at the end, an update and a toggle touch one user, and all others stay in place. */
  lemma ChangeAt(users: seq<FTPUser>, op: Op, k: nat)
    requires !op.Delete? && (op.Modify? || op.Toggle? ==> FirstWith(users, op.name, k))
    ensures match op
            case Create(name, _, home, _, quota, upload, download) =>
              && |Changed(users, op)| == |users| + 1 && Changed(users, op)[..|users|] == users
              && IsUser(Changed(users, op)[|users|], name, home, 33, 33, upload, download, quota, true)
            case ChangePassword(_, _) => Changed(users, op) == users
            case Modify(_, home, _, quota, upload, download) =>
              && |Changed(users, op)| == |users| && (forall i :: 0 <= i < |users| && i != k ==> Changed(users, op)[i] == users[i])
              && IsUser(Changed(users, op)[k], users[k].name, home, users[k].uid, users[k].gid, upload, download, quota, users[k].enabled)
            case Toggle(_) =>
              && |Changed(users, op)| == |users| && (forall i :: 0 <= i < |users| && i != k ==> Changed(users, op)[i] == users[i])
              && IsUser(Changed(users, op)[k], users[k].name, users[k].home, users[k].uid, users[k].gid,
                        users[k].upload, users[k].download, users[k].quota, !users[k].enabled)
            case Delete(_) => true
  {
    if op.Modify? || op.Toggle? { EditFirstAt(users, op, k); }
  }

  /** The user with these fields. */
  predicate IsUser(u: FTPUser, name: string, home: string, uid: int, gid: int, upload: int, download: int, quota: int, enabled: bool) {
    && u.name == name && u.home == home && u.uid == uid && u.gid == gid
    && u.upload == upload && u.download == download && u.quota == quota && u.enabled == enabled
  }

  lemma {:induction false} WithoutConcat(a: seq<FTPUser>, b: seq<FTPUser>, name: string)
    ensures Without(a + b, name) == Without(a, name) + Without(b, name)
  {
    if a == [] {
      assert a + b == b;
    } else {
      assert (a + b)[0] == a[0] && (a + b)[1..] == a[1..] + b;
      WithoutConcat(a[1..], b, name);
      var h := if EqualFold(a[0].name, name) then [] else [a[0]];
      AssocOf(h, Without(a[1..], name), Without(b, name));
    }
  }

  lemma {:induction false} NoneWithout(users: seq<FTPUser>, name: string)
    requires !Known(users, name)
    ensures Without(users, name) == users
  {
    if users != [] {
      assert !EqualFold(users[0].name, name);
      assert !Known(users[1..], name) by {
        forall i | 0 <= i < |users[1..]| ensures !EqualFold(users[1..][i].name, name) { assert users[1..][i] == users[i + 1]; }
      }
      NoneWithout(users[1..], name);
    }
  }

  lemma WithoutOne(u: FTPUser, name: string)
    requires EqualFold(u.name, name)
    ensures Without([u], name) == []
  {
  }

  lemma WithoutMiddle(a: seq<FTPUser>, x: seq<FTPUser>, b: seq<FTPUser>, name: string)
    requires Without(a, name) == a && Without(x, name) == []
    ensures Without(a + x + b, name) == a + Without(b, name)
  {
    WithoutConcat(a + x, b, name);
    WithoutConcat(a, x, name);
  }

  /** A deletion takes out the users with the name, wherever they stand, and keeps the others in their order. */
  lemma DeleteAt(before: seq<FTPUser>, u: FTPUser, behind: seq<FTPUser>, op: Op)
    requires op.Delete? && EqualFold(u.name, op.name) && !Known(before, op.name)
    ensures Changed(before + [u] + behind, op) == before + Without(behind, op.name)
    ensures !Known(behind, op.name) ==> Changed(before + [u] + behind, op) == before + behind
  {
    NoneWithout(before, op.name);
    WithoutOne(u, op.name);
    WithoutMiddle(before, [u], behind, op.name);
    if !Known(behind, op.name) { NoneWithout(behind, op.name); }
  }

  // ----- Which hash is written -----

  /** Behind a save every user of the list has one account, with its new hash, its stored one, or the default one. */
  lemma {:induction false} HashAt(users: seq<FTPUser>, stored: map<string, string>, target: string, password: string, sha: Digest, i: nat)
    requires i < |users| && sha(password) != ""
    ensures var accounts := WithHashes(users, stored, target, password, sha);
            var name := users[i].name;
            && |accounts| == |users| && accounts[i].user == users[i]
            && (name == target && password != "" ==> accounts[i].hash == sha(password))
            && ((name != target || password == "") && name in stored && stored[name] != "" ==> accounts[i].hash == stored[name])
            && ((name != target || password == "") && (name !in stored || stored[name] == "") ==>
                 accounts[i].hash == sha("default_secure_pass"))
  {
    if i > 0 {
      HashAt(users[1..], stored, target, password, sha, i - 1);
    } else if |users| > 1 {
      HashAt(users[1..], stored, target, password, sha, 0);
    }
  }

  /**
   What a carried-out operation writes: the users of the changed list in order; a creation and a
   password change give the digest of the password to that very name, everyone else gets the
   stored hash, or the default one when none could be read.
   */
  lemma SavedAccounts(file: Option<string>, op: Op, sha: Digest, disk: Disk) returns (accounts: seq<Account>)
    requires FileAnswer(file, op, disk) == Done && forall p :: sha(p) != ""
    ensures FileAfter(file, op, sha, disk) == Some(Printed(accounts))
    ensures var users := Changed(Seen(file, disk), op);
            var stored := if disk.hashesOk then Hashes(file) else map[];
            && |accounts| == |users|
            && forall i :: 0 <= i < |users| ==>
                 && accounts[i].user == users[i]
                 && accounts[i].hash == if (op.Create? || op.ChangePassword?) && users[i].name == op.name then sha(op.password)
                                        else if users[i].name in stored && stored[users[i].name] != "" then stored[users[i].name]
                                        else sha("default_secure_pass")
  {
    var users, stored := Changed(Seen(file, disk), op), SeenHashes(file, disk);
    var target := if NewPassword(op) != "" then op.name else "";
    accounts := WithHashes(users, stored, target, NewPassword(op), sha);
    assert op.Create? || op.ChangePassword? ==> op.password != "";
    if users != [] { HashAt(users, stored, target, NewPassword(op), sha, 0); }
    forall i | 0 <= i < |users|
      ensures accounts[i].user == users[i]
      ensures accounts[i].hash == if (op.Create? || op.ChangePassword?) && users[i].name == op.name then sha(op.password)
                                  else if users[i].name in stored && stored[users[i].name] != "" then stored[users[i].name]
                                  else sha("default_secure_pass")
    {
      HashAt(users, stored, target, NewPassword(op), sha, i);
    }
  }
}
