/**
 The FTP user file as a store of accounts: what is saved is loaded, and a password hash
 changes only when that very name is given a new password.
 */
module FtpStore {
  import opened Text
  import opened Ftp

  // ----- One line -----

  predicate HashOk(h: string) {
    h != "" && Free(h, ':') && forall i :: 0 <= i < |h| ==> !IsSpace(h[i])
  }

  /** A digest is a non-empty run of visible bytes without colons. */
  ghost predicate DigestOk(sha: Digest) {
    forall p :: HashOk(sha(p))
  }

  /** What the manager accepts, with numbers of the machine's width. */
  predicate Accepted(u: FTPUser) {
    && ValidName(Trim(u.name))
    && Int64(u.uid) && Int64(u.gid) && Int64(u.upload) && Int64(u.download) && Int64(u.quota)
  }

  /** A name without leading blank and line break, and a home without separators. */
  predicate Fits(u: FTPUser) {
    && (u.name == "" || !IsSpace(u.name[0])) && Free(u.name, '\n')
    && Free(u.home, ':') && Free(u.home, '\n')
  }

  /** A user the format can hold. */
  predicate Storable(u: FTPUser) {
    Accepted(u) && Fits(u)
  }

  lemma NameFacts(name: string)
    requires ValidName(Trim(name))
    ensures name != "" && Free(name, ':')
  {
    var p, q := TrimSplit(name);
    var t := Trim(name);
    assert name == p + t + q;
    forall i | 0 <= i < |name| ensures name[i] != ':' {
      if i < |p| { assert name[i] == p[i]; }
      else if i < |p| + |t| { assert name[i] == t[i - |p|]; }
      else { assert name[i] == q[i - |p| - |t|]; }
    }
  }

  lemma IntFieldBack(n: int)
    requires Int64(n)
    ensures IntField(IntText(n)) == n && Free(IntText(n), ':') && Free(IntText(n), '\n') && IntText(n) != ""
  {
    IntIsRead(n);
  }

  lemma Piece(a: string, b: string)
    requires Free(a, ':')
    ensures SplitOn(a + (":" + b), ':') == [a] + SplitOn(b, ':')
  {
    SplitPiece(a, ':', b);
  }

  /** The bandwidth and quota fields. */
  lemma LimitFields(up: string, down: string, quota: string)
    requires Free(up, ':') && Free(down, ':') && Free(quota, ':')
    ensures var parts := SplitOn(up + (":" + (down + (":" + (quota + "::::::")))), ':');
            |parts| >= 3 && parts[0] == up && parts[1] == down && parts[2] == quota
  {
    assert quota + "::::::" == quota + (":" + ":::::");
    Piece(quota, ":::::");
    Piece(down, quota + "::::::");
    Piece(up, down + (":" + (quota + "::::::")));
  }

  lemma ColonPair(f: string)
    ensures "::" + f == ":" + ("" + (":" + f))
  {
  }

  lemma HomeFields(gid: string, home: string, rest: string)
    requires Free(gid, ':') && Free(home, ':')
    ensures SplitOn(gid + ("::" + (home + (":" + rest))), ':') == [gid] + ([""] + ([home] + SplitOn(rest, ':')))
  {
    var f := home + (":" + rest);
    ColonPair(f);
    Piece(home, rest);
    Piece("", f);
    Piece(gid, "" + (":" + f));
  }

  lemma IdFields(name: string, hash: string, uid: string, tail: string)
    requires Free(name, ':') && Free(hash, ':') && Free(uid, ':')
    ensures SplitOn(name + (":" + (hash + (":" + (uid + (":" + tail))))), ':') ==
            [name] + ([hash] + ([uid] + SplitOn(tail, ':')))
  {
    var c := uid + (":" + tail);
    Piece(uid, tail);
    Piece(hash, c);
    Piece(name, hash + (":" + c));
  }

  /** The fields of a printed entry. */
  lemma EntryFields(u: FTPUser, hash: string)
    requires Storable(u) && Free(hash, ':')
    ensures UserOf(SplitOn(Entry(u, hash), ':'), u.enabled) == Some(u)
    ensures var parts := SplitOn(Entry(u, hash), ':'); |parts| >= 2 && parts[0] == u.name && parts[1] == hash
  {
    NameFacts(u.name);
    IntFieldBack(u.uid);
    IntFieldBack(u.gid);
    IntFieldBack(u.upload);
    IntFieldBack(u.download);
    IntFieldBack(u.quota);
    var rest := IntText(u.upload) + (":" + (IntText(u.download) + (":" + (IntText(u.quota) + "::::::"))));
    LimitFields(IntText(u.upload), IntText(u.download), IntText(u.quota));
    HomeFields(IntText(u.gid), u.home, rest);
    IdFields(u.name, hash, IntText(u.uid), IntText(u.gid) + ("::" + (u.home + (":" + rest))));
    var limits := SplitOn(rest, ':');
    NineParts(SplitOn(Entry(u, hash), ':'), u.name, hash, IntText(u.uid), IntText(u.gid), u.home, limits);
  }

  lemma NineParts(parts: seq<string>, name: string, hash: string, uid: string, gid: string, home: string, limits: seq<string>)
    requires |limits| >= 3
    requires parts == [name] + ([hash] + ([uid] + ([gid] + ([""] + ([home] + limits)))))
    ensures |parts| >= 9 && parts[0] == name && parts[1] == hash && parts[2] == uid && parts[3] == gid && parts[5] == home
    ensures parts[6] == limits[0] && parts[7] == limits[1] && parts[8] == limits[2]
  {
  }

  lemma EntryEnds(u: FTPUser, hash: string)
    requires Storable(u)
    ensures Tight(Entry(u, hash)) && Entry(u, hash) != "" && Entry(u, hash)[0] == u.name[0] && Entry(u, hash)[0] != '#'
  {
    NameFacts(u.name);
    var e := Entry(u, hash);
    assert e[|e| - 1] == ':' by { EndsIn(u, hash); }
    assert e[0] == u.name[0];
    NameHead(u.name);
  }

  lemma NameHead(name: string)
    requires ValidName(Trim(name)) && name != "" && !IsSpace(name[0])
    ensures name[0] != '#' && name[0] == Trim(name)[0]
  {
    assert Trim(name) == TrimRight(name);
    var q := TrimRightSplit(name);
    assert IsNameChar(Trim(name)[0]);
  }

  lemma EndsIn(u: FTPUser, hash: string)
    ensures var e := Entry(u, hash); e != "" && e[|e| - 1] == ':'
  {
    var q := IntText(u.quota) + "::::::";
    assert q[|q| - 1] == ':';
    var a := IntText(u.upload) + (":" + (IntText(u.download) + (":" + q)));
    assert a[|a| - 1] == ':';
    var b := IntText(u.gid) + ("::" + (u.home + (":" + a)));
    assert b[|b| - 1] == ':';
    var c := u.name + (":" + (hash + (":" + (IntText(u.uid) + (":" + b)))));
    assert c[|c| - 1] == ':';
  }

  lemma DisabledTrim(e: string, mark: string)
    requires Tight(e) && e != "" && mark == DISABLED
    ensures var t := "# DISABLED: " + e;
            Trim(t) == t && mark <= t && t != "" && t[0] == '#' && Trim(t[|mark|..]) == e
  {
    var t := "# DISABLED: " + e;
    assert t == mark + (" " + e) && t[0] == '#' && t[|t| - 1] == e[|e| - 1];
    assert "" + t + "" == t;
    TrimPadded("", t, "");
    assert t[|mark|..] == " " + e + "";
    TrimPadded(" ", e, "");
  }

  lemma PlainTrim(e: string, mark: string)
    requires Tight(e) && e != "" && e[0] != '#' && mark == DISABLED
    ensures Trim(e) == e && !(mark <= e) && !("#" <= e) && Trim(Trim(e)) == e
  {
    assert "" + e + "" == e;
    TrimPadded("", e, "");
    PrefixHead(mark, e);
    PrefixHead("#", e);
  }

  /** A printed line is read back as its user, with its hash. */
  lemma LineRoundTrip(u: FTPUser, hash: string)
    requires Storable(u) && HashOk(hash)
    ensures ParseLine(UserLine(u, hash)) == Some(u)
    ensures HashLine(UserLine(u, hash)) == Some((u.name, hash))
  {
    var e := Entry(u, hash);
    EntryFields(u, hash);
    EntryEnds(u, hash);
    if u.enabled {
      assert "" + e == e;
      PlainTrim(e, DISABLED);
    } else {
      DisabledTrim(e, DISABLED);
    }
  }

  // ----- The whole file -----

  predicate AccountOk(a: Account) {
    Storable(a.user) && HashOk(a.hash)
  }

  predicate AllOk(accounts: seq<Account>) {
    forall i :: 0 <= i < |accounts| ==> AccountOk(accounts[i])
  }

  function Users(accounts: seq<Account>): seq<FTPUser> {
    if accounts == [] then [] else [accounts[0].user] + Users(accounts[1..])
  }

  lemma LineFree(u: FTPUser, hash: string, p: string)
    requires Storable(u) && HashOk(hash) && p == "# DISABLED: "
    ensures Free(UserLine(u, hash), '\n')
  {
    IntFieldBack(u.uid);
    IntFieldBack(u.gid);
    IntFieldBack(u.upload);
    IntFieldBack(u.download);
    IntFieldBack(u.quota);
    PrefixFree(p);
    assert Free(hash, '\n');
    PiecesFree(u.name, hash, IntText(u.uid), IntText(u.gid), u.home, IntText(u.upload), IntText(u.download), IntText(u.quota));
    FreeConcat(p, Entry(u, hash), '\n');
    FreeConcat("", Entry(u, hash), '\n');
  }

  lemma PrefixFree(p: string)
    requires p == "# DISABLED: "
    ensures Free(p, '\n')
  {
  }

  lemma PiecesFree(name: string, hash: string, uid: string, gid: string, home: string, up: string, down: string, quota: string)
    requires Free(name, '\n') && Free(hash, '\n') && Free(uid, '\n') && Free(gid, '\n')
    requires Free(home, '\n') && Free(up, '\n') && Free(down, '\n') && Free(quota, '\n')
    ensures Free(name + (":" + (hash + (":" + (uid + (":" + (gid + ("::" + (home + (":" +
                 (up + (":" + (down + (":" + (quota + "::::::")))))))))))))), '\n')
  {
    var c := '\n';
    var q := quota + "::::::";
    FreeConcat(quota, "::::::", c);
    FreeThen(down, ":", q, c);
    var d := down + (":" + q);
    FreeThen(up, ":", d, c);
    var e := up + (":" + d);
    FreeThen(home, ":", e, c);
    var f := home + (":" + e);
    FreeThen(gid, "::", f, c);
    var g := gid + ("::" + f);
    FreeThen(uid, ":", g, c);
    var h := uid + (":" + g);
    FreeThen(hash, ":", h, c);
    FreeThen(name, ":", hash + (":" + h), c);
  }

  lemma FreeThen(a: string, m: string, b: string, c: char)
    requires Free(a, c) && Free(m, c) && Free(b, c)
    ensures Free(a + (m + b), c)
  {
  }

  lemma LineOff(l: string, rest: string, acc: map<string, string>)
    requires Free(l, '\n')
    ensures SplitOn(l + "\n" + rest, '\n') == [l] + SplitOn(rest, '\n')
    ensures ParseLines(SplitOn(l + "\n" + rest, '\n')) ==
            (match ParseLine(l) case None => [] case Some(u) => [u]) + ParseLines(SplitOn(rest, '\n'))
    ensures Collect(SplitOn(l + "\n" + rest, '\n'), acc) ==
            Collect(SplitOn(rest, '\n'), match HashLine(l) case None => acc case Some(kv) => acc[kv.0 := kv.1])
  {
    assert l + "\n" + rest == l + (['\n'] + rest);
    SplitPiece(l, '\n', rest);
    assert ([l] + SplitOn(rest, '\n'))[1..] == SplitOn(rest, '\n');
  }

  /** The hash map of a list of accounts. */
  function HashMap(accounts: seq<Account>, acc: map<string, string>): map<string, string> {
    if accounts == [] then acc else HashMap(accounts[1..], acc[accounts[0].user.name := accounts[0].hash])
  }

  lemma {:induction false} LinesRead(accounts: seq<Account>, acc: map<string, string>)
    requires AllOk(accounts)
    ensures ParseLines(SplitOn(Lines(accounts), '\n')) == Users(accounts)
    ensures Collect(SplitOn(Lines(accounts), '\n'), acc) == HashMap(accounts, acc)
    decreases |accounts|
  {
    if accounts == [] {
      assert SplitOn("", '\n') == [""] && [""][1..] == [] && Trim("") == "";
      assert ParseLine("") == None && HashLine("") == None;
    } else {
      var a := accounts[0];
      LineFree(a.user, a.hash, "# DISABLED: ");
      LineRoundTrip(a.user, a.hash);
      LineOff(UserLine(a.user, a.hash), Lines(accounts[1..]), acc);
      LinesRead(accounts[1..], acc[a.user.name := a.hash]);
    }
  }

  lemma BannerParts(a: string, b: string)
    requires a == "# Hostvra Pure-FTPd Virtual" && b == " User Database"
    ensures BANNER == (a + b) + "\n" + ("" + "\n") && Free(a, '\n') && Free(b, '\n') && Free(a, ':') && Free(b, ':')
    ensures Tight(a + b) && a[2] == 'H' && a[0] == '#'
  {
    assert " User Database\n\n" == b + "\n" + ("" + "\n");
    assert a + (b + "\n" + ("" + "\n")) == (a + b) + "\n" + ("" + "\n");
  }

  /** A comment without a colon is neither a user nor a hash. */
  lemma NoteLine(l: string, mark: string)
    requires mark == DISABLED && Tight(l) && |l| > 2 && l[0] == '#' && l[2] == 'H' && Free(l, ':')
    ensures ParseLine(l) == None && HashLine(l) == None
  {
    assert "" + l + "" == l;
    TrimPadded("", l, "");
    assert mark[2] == 'D';
    assert !(mark <= l);
    assert "#" <= l;
    SplitWhole(l, ':');
  }

  lemma BannerRead(l: string, lines: string)
    requires Free(l, '\n') && ParseLine(l) == None && HashLine(l) == None
    ensures var text := l + "\n" + ("" + "\n" + lines);
            ParseLines(SplitOn(text, '\n')) == ParseLines(SplitOn(lines, '\n')) &&
            Collect(SplitOn(text, '\n'), map[]) == Collect(SplitOn(lines, '\n'), map[])
  {
    LineOff(l, "" + "\n" + lines, map[]);
    assert Trim("") == "" && SplitOn("", ':') == [""];
    assert ParseLine("") == None && HashLine("") == None;
    LineOff("", lines, map[]);
  }

  /** Loading a saved file gives the users and the hashes that were saved. */
  lemma FileRoundTrip(accounts: seq<Account>)
    requires AllOk(accounts)
    ensures Parsed(Printed(accounts)) == Users(accounts)
    ensures Hashes(Some(Printed(accounts))) == HashMap(accounts, map[])
  {
    var a, b := "# Hostvra Pure-FTPd Virtual", " User Database";
    BannerParts(a, b);
    var l := a + b;
    assert l[0] == a[0] && l[2] == a[2];
    NoteLine(l, DISABLED);
    BannerRead(l, Lines(accounts));
    assert Printed(accounts) == l + "\n" + ("" + "\n" + Lines(accounts)) by {
      BannerRegroup(l, Lines(accounts));
    }
    LinesRead(accounts, map[]);
  }

  lemma BannerRegroup(l: string, lines: string)
    ensures (l + "\n" + ("" + "\n")) + lines == l + "\n" + ("" + "\n" + lines)
  {
  }

  // ----- What does not come back -----

  lemma TrimFree(s: string, c: char)
    requires Free(s, c)
    ensures Free(Trim(s), c) && (Trim(s) == "" || !IsSpace(Trim(s)[0]))
  {
    var p, q := TrimSplit(s);
    forall i | 0 <= i < |Trim(s)| ensures Trim(s)[i] != c { assert s[|p| + i] == Trim(s)[i]; }
  }

  lemma {:induction false} SplitFree(s: string, c: char, d: char)
    requires Free(s, d)
    ensures AllFree(SplitOn(s, c), d)
    ensures SplitOn(s, c)[0] != "" ==> s != "" && SplitOn(s, c)[0][0] == s[0]
  {
    if s != "" { SplitFree(s[1..], c, d); }
  }

  lemma PartsFit(raw: string, enabled: bool)
    requires Free(raw, '\n') && (raw == "" || !IsSpace(raw[0]))
    ensures match UserOf(SplitOn(raw, ':'), enabled) case None => true case Some(u) => Fits(u)
  {
    SplitFree(raw, ':', '\n');
    JoinSplit(raw, ':');
  }

  /** Whatever a line says, the user read from it fits. */
  lemma LineFits(text: string)
    requires Free(text, '\n')
    ensures match ParseLine(text) case None => true case Some(u) => Fits(u)
  {
    TrimFree(text, '\n');
    var line := Trim(text);
    PartsFit(line, true);
    if DISABLED <= line {
      TrimFree(line[|DISABLED|..], '\n');
      PartsFit(Trim(line[|DISABLED|..]), false);
    }
  }

  lemma {:induction false} LinesFit(lines: seq<string>)
    requires AllFree(lines, '\n')
    ensures forall u :: u in ParseLines(lines) ==> Fits(u)
  {
    if lines != [] {
      LineFits(lines[0]);
      LinesFit(lines[1..]);
    }
  }

  predicate AllAccepted(accounts: seq<Account>) {
    forall i :: 0 <= i < |accounts| ==> Accepted(accounts[i].user) && HashOk(accounts[i].hash)
  }

  lemma {:induction false} UsersIn(accounts: seq<Account>, i: nat)
    requires i < |accounts|
    ensures accounts[i].user in Users(accounts)
  {
    if i > 0 { UsersIn(accounts[1..], i - 1); }
  }

  /** A saved list is read back exactly when every name and home fits the format. */
  lemma FileRoundTripIff(accounts: seq<Account>)
    requires AllAccepted(accounts)
    ensures Parsed(Printed(accounts)) == Users(accounts) <==> forall i :: 0 <= i < |accounts| ==> Fits(accounts[i].user)
  {
    if forall i :: 0 <= i < |accounts| ==> Fits(accounts[i].user) {
      FileRoundTrip(accounts);
    } else {
      var i :| 0 <= i < |accounts| && !Fits(accounts[i].user);
      UsersIn(accounts, i);
      JoinSplit(Printed(accounts), '\n');
      LinesFit(SplitOn(Printed(accounts), '\n'));
    }
  }

  /** An accepted name survives saving and loading exactly when it has no leading blank and no line break. */
  lemma NameSurvivesIff(u: FTPUser, hash: string)
    requires Accepted(u) && HashOk(hash) && Free(u.home, ':') && Free(u.home, '\n')
    ensures Parsed(Printed([Account(u, hash)])) == [u] <==> u.name != "" && !IsSpace(u.name[0]) && Free(u.name, '\n')
  {
    var accounts := [Account(u, hash)];
    NameFacts(u.name);
    assert Users(accounts) == [u] by { assert accounts[1..] == []; }
    assert accounts[0].user == u;
    FileRoundTripIff(accounts);
  }
}
