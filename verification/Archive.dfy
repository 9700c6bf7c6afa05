/**
 Packing a directory into archive entries and extracting entries below a destination.
 */
module Archive {
  import opened Text
  import opened Paths
  import opened FileTree
  import opened Links
  import opened Copying
  import opened CopyWalk

  datatype Kind = RegularFile | Directory | LinkEntry | OtherEntry

  datatype Entry = Entry(name: string, kind: Kind, content: string)

  // ----- Packing -----

  /** A walk of a tree: every path below the top once, a directory before what it holds. */
  predicate WalkOrder(v: Tree, order: seq<Path>) {
    && (forall p :: p in order ==> p in v && p != [])
    && (forall p :: p in v ==> p == [] || p in order)
    && (forall i, j :: 0 <= i < j < |order| ==> order[i] != order[j])
    && (forall i :: 0 <= i < |order| && order[i] != [] && Parent(order[i]) != [] ==> Parent(order[i]) in order[..i])
  }

  function EntryOf(p: Path, n: Node): Entry {
    var name := Join(p, "/");
    match n
    case Dir => Entry(name, Directory, "")
    case File(c) => Entry(name, RegularFile, c)
    case Link(_) => Entry(name, LinkEntry, "")
    case Special => Entry(name, OtherEntry, "")
  }

  datatype Pass = PassedOver | Traversal | Taken(entry: Entry)

  /** Sockets and pipes are passed over; a relative path that holds `..` anywhere is refused. */
  function PackOne(p: Path, n: Node): Pass {
    if n == Special then PassedOver
    else if Contains(Join(p, "/"), "..") then Traversal
    else Taken(EntryOf(p, n))
  }

  /** The entries of a walk; none when one of its paths is refused. */
  function Packed(v: Tree, order: seq<Path>): Option<seq<Entry>>
    requires forall p :: p in order ==> p in v
    decreases |order|
  {
    if order == [] then Some([])
    else
      assert order[0] in order;
      match PackOne(order[0], v[order[0]])
      case PassedOver => Packed(v, order[1..])
      case Traversal => None
      case Taken(e) => Prefixed([e], Packed(v, order[1..]))
  }

  function Prefixed(es: seq<Entry>, r: Option<seq<Entry>>): Option<seq<Entry>> {
    match r
    case None => None
    case Some(later) => Some(es + later)
  }

  lemma PrefixedNone(r: Option<seq<Entry>>)
    ensures Prefixed([], r) == r
  {
    if r.Some? { assert [] + r.value == r.value; }
  }

  lemma PrefixedTwice(es: seq<Entry>, e: Entry, r: Option<seq<Entry>>)
    ensures Prefixed(es, Prefixed([e], r)) == Prefixed(es + [e], r)
  {
    if r.Some? { assert es + ([e] + r.value) == es + [e] + r.value; }
  }

  method ArchiveDirectory(v: Tree, order: seq<Path>) returns (r: Option<seq<Entry>>, fileCount: nat)
    requires WalkOrder(v, order)
    ensures r == Packed(v, order)
    ensures r.Some? ==> fileCount == |Files(v, order)|
  {
    var entries: seq<Entry> := [];
    fileCount := 0;
    var i := 0;
    assert order[0..] == order;
    PrefixedNone(Packed(v, order));
    while i < |order|
      invariant 0 <= i <= |order|
      invariant forall p :: p in order[i..] ==> p in v
      invariant Packed(v, order) == Prefixed(entries, Packed(v, order[i..]))
      invariant fileCount + |Files(v, order[i..])| == |Files(v, order)|
    {
      var p := order[i];
      WalkRest(v, order, i);
      PackNext(v, order, i, entries);
      match PackOne(p, v[p]) {
        case PassedOver =>
        case Traversal =>
          return None, fileCount;
        case Taken(e) =>
          entries := entries + [e];
          if v[p].File? { fileCount := fileCount + 1; }
      }
      i := i + 1;
    }
    assert order[|order|..] == [] && entries + [] == entries;
    r := Some(entries);
  }

  lemma WalkRest(v: Tree, order: seq<Path>, i: nat)
    requires i < |order| && forall p :: p in order[i..] ==> p in v
    ensures order[i..][0] == order[i] && order[i..][1..] == order[i + 1..] && order[i] in v
    ensures forall p :: p in order[i + 1..] ==> p in v
  {
    assert order[i] in order[i..];
    assert forall p :: p in order[i..][1..] ==> p in order[i..];
  }

  /** What one path adds to what has been packed before it. */
  lemma PackNext(v: Tree, order: seq<Path>, i: nat, entries: seq<Entry>)
    requires i < |order| && forall p :: p in order[i..] ==> p in v
    ensures order[i] in v && forall p :: p in order[i + 1..] ==> p in v
    ensures Prefixed(entries, Packed(v, order[i..])) ==
            match PackOne(order[i], v[order[i]])
            case PassedOver => Prefixed(entries, Packed(v, order[i + 1..]))
            case Traversal => None
            case Taken(e) => Prefixed(entries + [e], Packed(v, order[i + 1..]))
    ensures |Files(v, order[i..])| ==
            (if v[order[i]].File? && !PackOne(order[i], v[order[i]]).PassedOver? then 1 else 0) + |Files(v, order[i + 1..])|
  {
    WalkRest(v, order, i);
    match PackOne(order[i], v[order[i]]) {
      case Taken(e) => PrefixedTwice(entries, e, Packed(v, order[i + 1..]));
      case _ =>
    }
  }

  /** The regular files of a walk. */
  function Files(v: Tree, order: seq<Path>): seq<Path>
    requires forall p :: p in order ==> p in v
  {
    if order == [] then []
    else
      assert order[0] in order;
      (if v[order[0]].File? then [order[0]] else []) + Files(v, order[1..])
  }

  // ----- Extracting -----

  /** Where a clean path lies in the file system: below the root or below the working directory. */
  function Key(s: string): Path {
    [if Rooted(s) then "/" else "."] + Parts(s)
  }

  /** The place of an entry; none when its name or kind is refused. */
  function Resolve(dest: string, e: Entry): Option<Path> {
    var cleanDest := Clean(dest);
    var cleanName := Clean(ReplaceAll(e.name, "\\", "/"));
    if Contains(cleanName, "\0") || "/" <= cleanName then None
    else if e.kind == LinkEntry then None
    else
      var cleanTarget := Clean(JoinPath(cleanDest, cleanName));
      if !(cleanDest + "/" <= cleanTarget) && cleanTarget != cleanDest then None
      else Some(Key(cleanTarget))
  }

  /** One entry; an existing link in its very place is refused, links on the way there are followed. */
  function ExtractAt(t: Tree, p: Path, e: Entry): Step {
    match e.kind
    case Directory =>
      (match MadeDirs(t, p) case None => Step(false, t) case Some(u) => Step(true, u))
    case RegularFile =>
      if p == [] || LinkAt(t, p) then Step(false, t)
      else (match MadeDirs(t, Parent(p))
            case None => Step(false, t)
            case Some(u) =>
              (match Renamed(u, p, e.content) case None => Step(false, u) case Some(w) => Step(true, w)))
    case _ => Step(true, t)
  }

  function ExtractOne(t: Tree, dest: string, e: Entry): Step {
    match Resolve(dest, e)
    case None => Step(false, t)
    case Some(p) => ExtractAt(t, p, e)
  }

  function Extracted(t: Tree, dest: string, es: seq<Entry>): Step
    decreases |es|
  {
    if es == [] then Step(true, t)
    else
      var s := ExtractOne(t, dest, es[0]);
      if s.ok then Extracted(s.tree, dest, es[1..]) else s
  }

  method ExtractTarGz(fs: FileSystem, dest: string, entries: seq<Entry>) returns (ok: bool)
    modifies fs
    ensures Step(ok, fs.tree) == Extracted(old(fs.tree), dest, entries)
  {
    var i := 0;
    while i < |entries|
      invariant 0 <= i <= |entries|
      invariant Extracted(fs.tree, dest, entries[i..]) == Extracted(old(fs.tree), dest, entries)
    {
      var e := entries[i];
      assert entries[i..][0] == e && entries[i..][1..] == entries[i + 1..];
      var target := Resolve(dest, e);
      if target.None? { return false; }
      ok := ExtractEntry(fs, target.value, e);
      if !ok { return false; }
      i := i + 1;
    }
    assert entries[|entries|..] == [];
    return true;
  }

  method ExtractEntry(fs: FileSystem, p: Path, e: Entry) returns (ok: bool)
    modifies fs
    ensures Step(ok, fs.tree) == ExtractAt(old(fs.tree), p, e)
  {
    match e.kind {
      case Directory =>
        ok := fs.MkdirAll(p);
      case RegularFile =>
        if p == [] || LinkAt(fs.tree, p) { return false; }
        ok := fs.MkdirAll(Parent(p));
        if !ok { return false; }
        ok := fs.RenameInto(p, e.content);
      case _ =>
        ok := true;
    }
  }

  // ----- Containment -----

  lemma KeyOfRender(rooted: bool, cs: seq<string>)
    requires Climbs(rooted, cs)
    ensures Rooted(Render(rooted, cs)) == rooted && Parts(Render(rooted, cs)) == cs
  {
    if rooted || cs != [] {
      CleanFixed(rooted, cs);
    } else {
      DotPath();
    }
  }

  lemma DotPath()
    ensures Parts(".") == [] && !Rooted(".")
  {
    SplitWhole(".", '/');
    assert ["."][1..] == [];
  }

  /** Cleaning is idempotent, so a clean path is the text of its components. */
  lemma CleanTwice(s: string)
    ensures Clean(Clean(s)) == Clean(s) && Rooted(Clean(s)) == Rooted(s) && Parts(Clean(s)) == Parts(s)
    ensures Clean(s) == Render(Rooted(s), Parts(s))
  {
    PartsShape(s);
    KeyOfRender(Rooted(s), Parts(s));
  }

  lemma SplitRender(rooted: bool, cs: seq<string>)
    requires Climbs(rooted, cs) && cs != []
    ensures SplitOn(Render(rooted, cs), '/') == (if rooted then [""] else []) + cs
  {
    var k :| ClimbsBy(rooted, cs, k);
    PlainFrom(cs, k);
    assert AllFree(cs, '/');
    SplitJoin(cs, '/');
    if rooted {
      assert Render(rooted, cs) == "" + (['/'] + Join(cs, "/"));
      SplitPiece("", '/', Join(cs, "/"));
    } else {
      assert [] + cs == cs;
    }
  }

  /** The text of a clean path below a clean directory extends its components. */
  lemma PrefixExtends(rd: bool, cd: seq<string>, rt: bool, ct: seq<string>)
    requires Climbs(rd, cd) && Climbs(rt, ct) && cd != []
    requires Render(rd, cd) + "/" <= Render(rt, ct)
    ensures rd == rt && cd <= ct
  {
    var d, t := Render(rd, cd), Render(rt, ct);
    var rest := t[|d| + 1..];
    KeyOfRender(rd, cd);
    KeyOfRender(rt, ct);
    NonEmptyRender(rd, cd);
    assert t == d + (['/'] + rest) && t[0] == d[0];
    SplitSlash(d, '/', rest);
    SplitRender(rd, cd);
    LongerThanDot(rt, ct, d);
    SplitRender(rt, ct);
    assert (if rd then [""] else []) + ct == ((if rd then [""] else []) + cd) + SplitOn(rest, '/');
    DropFirst(if rd then [""] else [], ct, cd, SplitOn(rest, '/'));
  }

  lemma DropFirst(a: seq<string>, x: seq<string>, y: seq<string>, z: seq<string>)
    requires a + x == (a + y) + z
    ensures x == y + z
  {
    assert x == (a + x)[|a|..];
    assert y + z == ((a + y) + z)[|a|..];
  }

  lemma NonEmptyRender(rooted: bool, cs: seq<string>)
    requires Climbs(rooted, cs)
    ensures Render(rooted, cs) != ""
  {
    var k :| ClimbsBy(rooted, cs, k);
    PlainFrom(cs, k);
    if !rooted && cs != [] { JoinStart(cs); }
  }

  lemma LongerThanDot(rt: bool, ct: seq<string>, d: string)
    requires d != "" && d + "/" <= Render(rt, ct)
    ensures ct != []
  {
    assert |Render(rt, ct)| >= 2;
  }

  /** Below the bare root, or the bare working directory, the text test accepts nothing but the directory itself. */
  lemma BareRefuses(rd: bool, rt: bool, ct: seq<string>)
    requires Climbs(rt, ct)
    ensures !(Render(rd, []) + "/" <= Render(rt, ct))
  {
    var d, t := Render(rd, []) + "/", Render(rt, ct);
    assert d == if rd then "//" else "./";
    assert d[1] == '/';
    if d <= t {
      assert t[0] == d[0] && t[1] == d[1];
      LongerThanDot(rt, ct, Render(rd, []));
      var k :| ClimbsBy(rt, ct, k);
      PlainFrom(ct, k);
      SecondByte(rt, ct);
    }
  }

  lemma SecondByte(rt: bool, ct: seq<string>)
    requires ct != [] && (ct[0] == ".." || Plain(ct[0])) && |Render(rt, ct)| >= 2
    ensures Render(rt, ct)[1] == '/' ==> !rt && |ct[0]| == 1 && Render(rt, ct)[0] != '.'
  {
    JoinStart(ct);
    var j := Join(ct, "/");
    assert forall i :: 0 <= i < |ct[0]| ==> j[i] == ct[0][i];
    if !rt && |ct[0]| == 1 { assert ct[0] != "." ; assert ct[0] == [ct[0][0]]; }
  }

  /** Every accepted entry lies at or below the destination, component by component. */
  lemma ResolveContained(dest: string, e: Entry)
    requires Resolve(dest, e).Some?
    ensures Key(Clean(dest)) <= Resolve(dest, e).value
  {
    var d := Clean(dest);
    var name := Clean(ReplaceAll(e.name, "\\", "/"));
    var t := Clean(JoinPath(d, name));
    CleanTwice(dest);
    CleanTwice(d + "/" + name);
    PartsShape(dest);
    PartsShape(d + "/" + name);
    if d + "/" <= t {
      if Parts(dest) == [] {
        BareRefuses(Rooted(dest), Rooted(d + "/" + name), Parts(d + "/" + name));
      } else {
        PrefixExtends(Rooted(dest), Parts(dest), Rooted(d + "/" + name), Parts(d + "/" + name));
      }
    }
  }

  lemma BelowPlain(rooted: bool, ct: seq<string>, cd: seq<string>)
    requires Climbs(rooted, ct) && cd != [] && cd <= ct && cd[|cd| - 1] != ".."
    ensures AllPlain(ct[|cd|..])
  {
    var k :| ClimbsBy(rooted, ct, k);
    assert ct[|cd| - 1] == cd[|cd| - 1];
    assert k < |cd|;
    PlainFrom(ct, k);
  }

  lemma KeyTail(h: string, ct: seq<string>, cd: seq<string>)
    requires [h] + cd <= [h] + ct
    ensures cd <= ct && ([h] + ct)[|[h] + cd|..] == ct[|cd|..]
  {
    assert cd == ([h] + cd)[1..] && ct == ([h] + ct)[1..];
  }

  /** Below a directory that does not end by climbing, nothing climbs. */
  lemma ResolveNeverClimbs(dest: string, e: Entry)
    requires Resolve(dest, e).Some? && Parts(dest) != [] && Parts(dest)[|Parts(dest)| - 1] != ".."
    ensures Key(Clean(dest)) <= Resolve(dest, e).value
    ensures AllPlain(Resolve(dest, e).value[|Key(Clean(dest))|..])
  {
    ResolveContained(dest, e);
    var t := Clean(dest) + "/" + Clean(ReplaceAll(e.name, "\\", "/"));
    CleanTwice(dest);
    CleanTwice(t);
    PartsShape(t);
    KeyHeads(if Rooted(dest) then "/" else ".", if Rooted(t) then "/" else ".", Parts(dest), Parts(t));
    KeyTail(if Rooted(t) then "/" else ".", Parts(t), Parts(dest));
    BelowPlain(Rooted(t), Parts(t), Parts(dest));
  }

  lemma KeyHeads(g: string, h: string, a: seq<string>, b: seq<string>)
    requires [g] + a <= [h] + b
    ensures g == h
  {
    assert ([g] + a)[0] == ([h] + b)[0];
  }

  // ----- What extraction may touch -----

  lemma ExtractInside(t: Tree, d: Path, p: Path, e: Entry)
    requires Enclosed(t, d) && d <= p
    ensures Enclosed(ExtractAt(t, p, e).tree, d) && SameOutside(t, ExtractAt(t, p, e).tree, d)
  {
    match e.kind {
      case Directory =>
        if MadeDirs(t, p).Some? { MadeDirsInside(t, d, p); }
      case RegularFile =>
        if p != [] && !LinkAt(t, p) && MadeDirs(t, Parent(p)).Some? {
          var u := MadeDirs(t, Parent(p)).value;
          if p == d {
            AncestorsIn(t, d, Parent(d));
            RealItself(t, Parent(d));
          } else {
            assert d <= Parent(p);
            MadeDirsInside(t, d, Parent(p));
          }
          if Renamed(u, p, e.content).Some? {
            RenamedInside(u, d, p, e.content);
            OutsideTwice(t, u, Renamed(u, p, e.content).value, d);
          }
        }
      case _ =>
    }
  }

  /** Whatever the entries are called, extraction below a sealed directory changes nothing outside it, even when it fails half-way. */
  lemma {:induction false} ExtractionContained(t: Tree, dest: string, es: seq<Entry>)
    requires Enclosed(t, Key(Clean(dest)))
    ensures Enclosed(Extracted(t, dest, es).tree, Key(Clean(dest)))
    ensures SameOutside(t, Extracted(t, dest, es).tree, Key(Clean(dest)))
    decreases |es|
  {
    if es != [] && Resolve(dest, es[0]).Some? {
      var d, p := Key(Clean(dest)), Resolve(dest, es[0]).value;
      ResolveContained(dest, es[0]);
      ExtractInside(t, d, p, es[0]);
      var s := ExtractOne(t, dest, es[0]);
      if s.ok {
        ExtractionContained(s.tree, dest, es[1..]);
        OutsideTwice(t, s.tree, Extracted(s.tree, dest, es[1..]).tree, d);
      }
    }
  }

  // ----- Packing and extracting -----

  /** Names an entry can have: ordinary components without backslash or NUL. */
  predicate Addressable(p: Path) {
    p != [] && AllPlain(p) && Free(Join(p, "/"), '\\') && Free(Join(p, "/"), '\0')
  }

  /** Names that survive packing as well: no `..` anywhere in the path. */
  predicate GoodPath(p: Path) {
    Addressable(p) && !Contains(Join(p, "/"), "..")
  }

  predicate GoodTree(v: Tree) {
    forall p :: p in v && p != [] ==> GoodPath(p)
  }

  lemma CleanPlain(cs: seq<string>)
    requires cs != [] && AllPlain(cs)
    ensures Clean(Join(cs, "/")) == Join(cs, "/") && !Rooted(Join(cs, "/")) && Parts(Join(cs, "/")) == cs
  {
    assert cs[0..] == cs;
    assert ClimbsBy(false, cs, 0);
    CleanFixed(false, cs);
  }

  /** A packed name resolves to its own place below the destination. */
  lemma ResolvePacked(dest: string, p: Path, e: Entry)
    requires Addressable(p) && e.name == Join(p, "/") && e.kind != LinkEntry && Parts(dest) != []
    ensures Resolve(dest, e) == Some(Key(Clean(dest)) + p)
  {
    var d := Clean(dest);
    NoByte(e.name, "\\");
    ReplaceAbsent(e.name, "\\", "/");
    CleanPlain(p);
    NoByte(e.name, "\0");
    PrefixHead("/", e.name);
    CleanTwice(dest);
    JoinPlain(d, p);
    var t := d + "/" + e.name;
    CleanTwice(t);
    JoinParts(d, e.name);
    NonEmptyClean(dest);
    assert Clean(t) == t;
    assert d + "/" <= t;
    assert Key(t) == Key(d) + p;
  }

  /** No links, so every entry is accepted. */
  predicate NoLinks(v: Tree) {
    forall p :: p in v ==> !v[p].Link?
  }

  /** The paths of a walk up to a point. */
  function Upto(order: seq<Path>, v: Tree, i: nat): set<Path>
    requires i <= |order|
  {
    {[]} + set p | p in order[..i] && p in v && Copied(v[p])
  }

  lemma UptoNext(order: seq<Path>, v: Tree, i: nat)
    requires i < |order| && order[i] in v
    ensures Upto(order, v, i + 1) == if Copied(v[order[i]]) then Upto(order, v, i) + {order[i]} else Upto(order, v, i)
  {
    assert order[..i + 1] == order[..i] + [order[i]];
  }

  lemma UptoSources(order: seq<Path>, v: Tree, i: nat)
    requires WellFormed(v) && i <= |order|
    ensures Upto(order, v, i) <= Sources(v, [])
  {
    forall p | p in Upto(order, v, i) ensures p in Sources(v, []) { assert [] <= p; }
  }

  /** Extraction into a free place of an existing directory. */
  lemma ExtractFree(t: Tree, x: Path, name: string, n: Node)
    requires WellFormed(t) && x != [] && x !in t && Parent(x) in t && t[Parent(x)] == Dir && Copied(n)
    ensures ExtractAt(t, x, Entry(name, if n.Dir? then Directory else RegularFile, if n.Dir? then "" else n.content)) ==
            Step(true, t[x := n])
    ensures WellFormed(t[x := n])
  {
    BelowIsStraight(t, x);
    StraightPrefix(t, x, Parent(x));
    PointKeeps(t, x, n);
    if n.Dir? {
      MadeStraight(t, x);
      MadeOne(t, x);
    } else {
      MadeStraight(t, Parent(x));
      RenamedStraight(t, x, n.content);
    }
  }

  /** One packed entry adds its node to the destination. */
  lemma ExtractPacked(t: Tree, v: Tree, d: Path, done: set<Path>, p: Path)
    requires WellFormed(v) && d != [] && WellFormed(t) && d in t && t[d] == Dir && (forall x :: x in t && d <= x ==> x == d)
    requires [] in done && done <= Sources(v, []) && p in Sources(v, []) && p != [] && p !in done && Parent(p) in done
    requires WellFormed(Overlay(t, v, [], d, done))
    ensures ExtractAt(Overlay(t, v, [], d, done), d + p, EntryOf(p, v[p])) ==
            Step(true, Overlay(t, v, [], d, done + {p}))
    ensures WellFormed(Overlay(t, v, [], d, done + {p}))
  {
    var u, x := Overlay(t, v, [], d, done), d + p;
    assert Moved([], d, p) == x;
    AncestorsIn(t, d, Parent(d));
    ParentReady(t, v, [], d, done, p);
    OverlayStep(t, v, [], d, done, p);
    forall q | q in done ensures Moved([], d, q) != x { assert q == Moved([], d, q)[|d|..] && p == x[|d|..]; }
    OverlayElse(t, v, [], d, done, x);
    assert x !in t;
    ExtractFree(u, x, Join(p, "/"), v[p]);
  }

  /** The place of the next path of a walk: its directory has been taken already. */
  lemma WalkParent(v: Tree, order: seq<Path>, i: nat)
    requires WellFormed(v) && WalkOrder(v, order) && i < |order| && Copied(v[order[i]])
    ensures order[i] != [] && Parent(order[i]) in Upto(order, v, i) && order[i] !in Upto(order, v, i)
  {
    var p := order[i];
    assert p in order;
    if Parent(p) != [] { assert Parent(p) in order[..i] && v[Parent(p)] == Dir; }
    forall j | 0 <= j < i ensures order[..i][j] != p { assert order[..i][j] == order[j]; }
  }

  /** An empty directory to extract into. */
  ghost predicate EmptyPlace(t: Tree, d: Path) {
    WellFormed(t) && d != [] && d in t && t[d] == Dir && forall x :: x in t && d <= x ==> x == d
  }

  lemma OneStep(t: Tree, v: Tree, order: seq<Path>, dest: string, i: nat)
    requires WellFormed(v) && WalkOrder(v, order) && GoodTree(v) && NoLinks(v) && i < |order| && order[i] in v && Copied(v[order[i]])
    requires EmptyPlace(t, Key(Clean(dest))) && Parts(dest) != []
    requires Upto(order, v, i) <= Sources(v, []) && Upto(order, v, i + 1) <= Sources(v, [])
    requires WellFormed(Overlay(t, v, [], Key(Clean(dest)), Upto(order, v, i)))
    ensures WellFormed(Overlay(t, v, [], Key(Clean(dest)), Upto(order, v, i + 1)))
    ensures ExtractOne(Overlay(t, v, [], Key(Clean(dest)), Upto(order, v, i)), dest, EntryOf(order[i], v[order[i]])) ==
            Step(true, Overlay(t, v, [], Key(Clean(dest)), Upto(order, v, i + 1)))
  {
    var p := order[i];
    UptoNext(order, v, i);
    WalkParent(v, order, i);
    assert GoodPath(p) && [] <= p;
    ResolvePacked(dest, p, EntryOf(p, v[p]));
    ExtractPacked(t, v, Key(Clean(dest)), Upto(order, v, i), p);
  }

  /** The next path of a walk is packed, or passed over. */
  lemma PackedNext(v: Tree, order: seq<Path>, i: nat)
    requires i < |order| && (forall p :: p in order[i..] ==> p in v) && GoodTree(v) && NoLinks(v) && order[i] != []
    requires Packed(v, order[i + 1..]).Some?
    ensures order[i] in v && Packed(v, order[i..]).Some?
    ensures Copied(v[order[i]]) ==>
              Packed(v, order[i..]).value == [EntryOf(order[i], v[order[i]])] + Packed(v, order[i + 1..]).value
    ensures !Copied(v[order[i]]) ==> Packed(v, order[i..]) == Packed(v, order[i + 1..])
  {
    var p := order[i];
    assert order[i..][0] == p && order[i..][1..] == order[i + 1..] && p in order[i..];
    assert GoodPath(p);
  }

  lemma {:induction false} RoundTripFrom(t: Tree, v: Tree, order: seq<Path>, dest: string, i: nat)
    requires WellFormed(v) && WalkOrder(v, order) && GoodTree(v) && NoLinks(v) && i <= |order|
    requires forall p :: p in order[i..] ==> p in v
    requires EmptyPlace(t, Key(Clean(dest))) && Parts(dest) != []
    requires Upto(order, v, i) <= Sources(v, []) && WellFormed(Overlay(t, v, [], Key(Clean(dest)), Upto(order, v, i)))
    ensures Packed(v, order[i..]).Some?
    ensures Upto(order, v, |order|) <= Sources(v, [])
    ensures Extracted(Overlay(t, v, [], Key(Clean(dest)), Upto(order, v, i)), dest, Packed(v, order[i..]).value) ==
            Step(true, Overlay(t, v, [], Key(Clean(dest)), Upto(order, v, |order|)))
    decreases |order| - i
  {
    if i < |order| {
      var p := order[i];
      assert p in order && order[i + 1..] == order[i..][1..];
      UptoSources(order, v, i + 1);
      UptoNext(order, v, i);
      if Copied(v[p]) { OneStep(t, v, order, dest, i); }
      RoundTripFrom(t, v, order, dest, i + 1);
      PackedNext(v, order, i);
      if Copied(v[p]) {
        ExtractCons(Overlay(t, v, [], Key(Clean(dest)), Upto(order, v, i)), dest, EntryOf(p, v[p]), Packed(v, order[i + 1..]).value);
      }
    }
  }

  lemma ExtractCons(t: Tree, dest: string, e: Entry, es: seq<Entry>)
    ensures Extracted(t, dest, [e] + es) ==
            if ExtractOne(t, dest, e).ok then Extracted(ExtractOne(t, dest, e).tree, dest, es) else ExtractOne(t, dest, e)
  {
    assert ([e] + es)[1..] == es;
  }

  lemma UptoWhole(v: Tree, order: seq<Path>)
    requires WellFormed(v) && WalkOrder(v, order)
    ensures Upto(order, v, |order|) == Sources(v, [])
  {
    assert order[..|order|] == order;
    UptoSources(order, v, |order|);
    forall p | p in Sources(v, []) ensures p in Upto(order, v, |order|) {}
  }

  lemma NothingDone(t: Tree, v: Tree, d: Path)
    requires WellFormed(v) && d in t && t[d] == Dir
    ensures {[]} <= Sources(v, []) && Overlay(t, v, [], d, {[]}) == t
  {
    var o := Overlay(t, v, [], d, {[]});
    var top: Path := [];
    assert top <= top && top in Sources(v, []);
    assert Moved([], d, []) == d + [] == d;
    var none: set<Path> := {};
    assert none + {top} == {top};
    OverlayStep(t, v, [], d, none, top);
    assert Overlay(t, v, [], d, {}) == t by {
      var e := Overlay(t, v, [], d, {});
      forall x ensures x in e <==> x in t { OverlayElse(t, v, [], d, {}, x); }
      forall x | x in t ensures e[x] == t[x] { OverlayElse(t, v, [], d, {}, x); }
    }
    assert t[d := Dir] == t;
  }

  /**
   Packing a tree of directories and regular files and extracting the entries into an empty
   directory reproduces every path with its content, and adds nothing; sockets and pipes are
   left out. It holds for every walk order.
   */
  lemma ArchiveRoundTrip(t: Tree, v: Tree, order: seq<Path>, dest: string)
    requires WellFormed(v) && WalkOrder(v, order) && GoodTree(v) && NoLinks(v) && Parts(dest) != []
    requires EmptyPlace(t, Key(Clean(dest)))
    ensures Packed(v, order).Some?
    ensures var d, s := Key(Clean(dest)), Extracted(t, dest, Packed(v, order).value);
            && s.ok && SameOutside(t, s.tree, d)
            && forall r: Path :: (d + r in s.tree <==> r in v && Copied(v[r])) && (d + r in s.tree ==> s.tree[d + r] == v[r])
  {
    var d := Key(Clean(dest));
    assert order[0..] == order && order[..0] == [];
    assert Upto(order, v, 0) == {[]};
    NothingDone(t, v, d);
    RoundTripFrom(t, v, order, dest, 0);
    UptoWhole(v, order);
    var all := Sources(v, []);
    var o := Overlay(t, v, [], d, all);
    OverlayOutside(t, v, [], d, all);
    forall r: Path
      ensures (d + r in o <==> r in v && Copied(v[r])) && (d + r in o ==> o[d + r] == v[r])
    {
      assert [] <= r;
      if r in all {
        OverlayAt(t, v, [], d, all, r);
        assert Moved([], d, r) == d + r;
      } else {
        forall q | q in all ensures Moved([], d, q) != d + r { assert q == Moved([], d, q)[|d|..] && r == (d + r)[|d|..]; }
        OverlayElse(t, v, [], d, all, d + r);
        assert r != [];
        assert d + r in t ==> d + r == d;
        assert (d + r)[|d|..] == r;
      }
    }
  }

  // ----- Ways out of the destination -----

  /** All names but those of the roots are names an entry can have, and every link leads somewhere below a root. */
  predicate NamesOk(t: Tree) {
    && (forall p :: p in t ==> forall i :: 1 <= i < |p| ==> NameOk(p[i]))
    && (forall p :: p in t && t[p].Link? ==> t[p].to != [])
  }

  predicate NameOk(c: string) {
    Plain(c) && Free(c, '\\') && Free(c, '\0')
  }

  lemma {:induction false} AddressableNames(r: Path)
    requires r != [] && forall i :: 0 <= i < |r| ==> NameOk(r[i])
    ensures Addressable(r)
  {
    JoinFreeOf(r, '\\');
    JoinFreeOf(r, '\0');
  }

  lemma {:induction false} JoinFreeOf(r: Path, c: char)
    requires (forall i :: 0 <= i < |r| ==> Free(r[i], c)) && c != '/'
    ensures Free(Join(r, "/"), c)
  {
    if |r| > 1 { JoinFreeOf(r[1..], c); }
  }

  /** A walk that leaves nothing over went through names that are there. */
  lemma {:induction false} WalkedNames(t: Tree, at: Path, rest: Path, hops: nat)
    requires NamesOk(t) && [] in t && at in t && Walk(t, at, rest, hops).Way? && Walk(t, at, rest, hops).left == []
    ensures forall i :: (if at == [] then 1 else 0) <= i < |rest| ==> NameOk(rest[i])
    decreases hops, |rest|
  {
    if rest != [] && t[at] == Dir {
      var next := at + [rest[0]];
      WalkFirst(t, at, rest, hops);
      if next in t {
        assert next[|at|] == rest[0];
        if !t[next].Link? {
          WalkedNames(t, next, rest[1..], hops);
        } else if hops > 0 {
          var more := t[next].to + rest[1..];
          WalkedNames(t, [], more, hops - 1);
          forall i | 1 <= i < |rest| ensures NameOk(rest[i]) { assert rest[i] == more[|t[next].to| + i - 1]; }
        }
      }
    }
  }

  lemma XsOk(f: string)
    requires f != "" && forall i :: 0 <= i < |f| ==> f[i] == 'x'
    ensures NameOk(f)
  {
    assert f[0] == 'x';
  }

  /** A file with a new name in the directory a path leads to. */
  lemma ExtractThrough(t: Tree, p: Path, q: Path, f: string, e: Entry)
    requires Real(t, p) == Some(q) && t[q] == Dir && q + [f] !in t && e.kind == RegularFile
    ensures ExtractAt(t, p + [f], e) == Step(true, t[q + [f] := File(e.content)])
  {
    assert Parent(p + [f]) == p && (p + [f])[|p + [f]| - 1] == f;
  }

  /** A destination that has a name of its own. */
  predicate Proper(dest: string) {
    Parts(dest) != [] && Parts(dest)[|Parts(dest)| - 1] != ".."
  }

  /** Through a link that leaves the destination one entry is enough. */
  lemma EscapeIsPossible(t: Tree, dest: string, p: Path) returns (e: Entry)
    requires WellFormed(t) && NamesOk(t) && Proper(dest) && Key(Clean(dest)) <= p
    requires Real(t, p).Some? && t[Real(t, p).value] == Dir && !(Key(Clean(dest)) <= Real(t, p).value)
    ensures !SameOutside(t, Extracted(t, dest, [e]).tree, Key(Clean(dest)))
  {
    var d, q := Key(Clean(dest)), Real(t, p).value;
    var f := FreshName(t.Keys + {d}, q);
    XsOk(f);
    e := Entry(Join(p[|d|..] + [f], "/"), RegularFile, "");
    assert p == d + p[|d|..] && d + (p[|d|..] + [f]) == p + [f];
    EntryFor(t, dest, d, p[|d|..], f, e);
    NotBelow(d, q, f);
    WrittenElsewhere(t, dest, d, p, q, f, e);
  }

  lemma WrittenElsewhere(t: Tree, dest: string, d: Path, p: Path, q: Path, f: string, e: Entry)
    requires Resolve(dest, e) == Some(p + [f]) && e.kind == RegularFile
    requires Real(t, p) == Some(q) && t[q] == Dir && q + [f] !in t && !(d <= q + [f])
    ensures !SameOutside(t, Extracted(t, dest, [e]).tree, d)
  {
    ExtractThrough(t, p, q, f, e);
    ExtractSingle(t, dest, e);
  }

  /** A path that leads somewhere, with one more name, is the place of an entry. */
  lemma EntryFor(t: Tree, dest: string, d: Path, r: Path, f: string, e: Entry)
    requires WellFormed(t) && NamesOk(t) && Proper(dest) && d == Key(Clean(dest)) && Real(t, d + r).Some? && NameOk(f)
    requires e.name == Join(r + [f], "/") && e.kind == RegularFile
    ensures Resolve(dest, e) == Some(d + (r + [f]))
  {
    NamesBelow(t, d + r, |d|);
    assert (d + r)[|d|..] == r;
    AddressableNames(r + [f]);
    ResolvePacked(dest, r + [f], e);
  }

  lemma NamesBelow(t: Tree, p: Path, n: nat)
    requires WellFormed(t) && NamesOk(t) && Real(t, p).Some? && 1 <= n <= |p|
    ensures forall i :: 0 <= i < |p[n..]| ==> NameOk(p[n..][i])
  {
    WalkedNames(t, [], p, MAX_LINKS);
  }

  lemma ExtractSingle(t: Tree, dest: string, e: Entry)
    ensures Extracted(t, dest, [e]) == ExtractOne(t, dest, e)
  {
    assert [e][1..] == [];
  }

  /** Extraction changes something outside the destination. */
  ghost predicate Leaks(t: Tree, dest: string, es: seq<Entry>) {
    !SameOutside(t, Extracted(t, dest, es).tree, Key(Clean(dest)))
  }

  /**
   No archive can change anything outside the destination exactly when no link below it leads
   to a directory outside it.
   */
  lemma ExtractionContainedIff(t: Tree, dest: string)
    requires WellFormed(t) && NamesOk(t) && Proper(dest) && Key(Clean(dest)) in t && t[Key(Clean(dest))] == Dir
    ensures (forall es :: !Leaks(t, dest, es)) <==> Sealed(t, Key(Clean(dest)))
  {
    var d := Key(Clean(dest));
    if Sealed(t, d) {
      forall es ensures !Leaks(t, dest, es) { ExtractionContained(t, dest, es); }
    } else {
      var p :| d <= p && Real(t, p).Some? && t[Real(t, p).value] == Dir && !(d <= Real(t, p).value);
      var e := EscapeIsPossible(t, dest, p);
      assert Leaks(t, dest, [e]);
    }
  }

  /** A link next to the destination's files, and a plain name behind it: the file appears where the link leads. */
  lemma LinkLetsOut(t: Tree, dest: string, link: string, name: string, to: Path, content: string)
    requires WellFormed(t) && Proper(dest) && NameOk(link) && NameOk(name)
    requires var l := Key(Clean(dest)) + [link]; l in t && t[l] == Link(to)
    requires to in t && t[to] == Dir && to + [name] !in t && !(Key(Clean(dest)) <= to + [name])
    ensures var s := Extracted(t, dest, [Entry(Join([link, name], "/"), RegularFile, content)]);
            s.ok && to + [name] in s.tree && s.tree[to + [name]] == File(content)
  {
    var d := Key(Clean(dest));
    var l, e := d + [link], Entry(Join([link, name], "/"), RegularFile, content);
    AddressableNames([link, name]);
    ResolvePacked(dest, [link, name], e);
    assert d + [link, name] == l + [name];
    LinkLeads(t, l, to);
    ExtractThrough(t, l, to, name, e);
    ExtractSingle(t, dest, e);
  }

  /** A link to an existing directory stands for it. */
  lemma LinkLeads(t: Tree, l: Path, to: Path)
    requires WellFormed(t) && l in t && t[l] == Link(to) && to in t && t[to] == Dir
    ensures Real(t, l) == Some(to)
  {
    AncestorsIn(t, l, Parent(l));
    ExistingIsStraight(t, Parent(l));
    var c := l[|l| - 1];
    assert l == Parent(l) + [c] && [] + Parent(l) == Parent(l) && [] + to == to;
    ExistingIsStraight(t, to);
    WalkStraight(t, [], Parent(l), MAX_LINKS);
    var w := Lead(t, Parent(l));
    assert w.at + [] == w.at;
    WalkToLink(t, [], Parent(l), c, to, MAX_LINKS);
    WalkStraight(t, [], to, MAX_LINKS - 1);
    var v := Walk(t, [], to, MAX_LINKS - 1);
    assert v.at + [] == v.at;
  }

  /** Along a straight path to a link, and on from its destination. */
  lemma {:induction false} WalkToLink(t: Tree, at: Path, rest: Path, c: string, to: Path, hops: nat)
    requires WellFormed(t) && at in t && Straight(t, at + rest) && at + rest in t && t[at + rest] == Dir && hops > 0
    requires at + rest + [c] in t && t[at + rest + [c]] == Link(to)
    ensures Walk(t, at, rest + [c], hops) == Walk(t, [], to, hops - 1)
    decreases |rest|
  {
    AncestorsIn(t, at + rest, at);
    if rest == [] {
      assert at + rest == at && rest + [c] == [c] && [c][1..] == [] && to + [] == to;
    } else {
      OneOn(at, rest);
      var next := at + [rest[0]];
      AncestorsIn(t, at + rest, next);
      assert (rest + [c])[0] == rest[0] && (rest + [c])[1..] == rest[1..] + [c];
      WalkToLink(t, next, rest[1..], c, to, hops);
    }
  }
}
