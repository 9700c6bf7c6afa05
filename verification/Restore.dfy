/**
 Restoring an archive over a target directory: verify, snapshot, stage, promote, and put
 the snapshot back when anything fails.
 */
module Restore {
  import opened Text
  import opened Paths
  import opened FileTree
  import opened Links
  import opened Copying
  import opened CopyWalk
  import opened Archive

  // ----- Verifying and staging -----

  /** A name that leaves the directory it is joined to. */
  predicate BadName(name: string) {
    var c := Clean(name);
    "../" <= c || c == ".." || Rooted(c)
  }

  /** A name that stays: relative, and cleaned to ordinary components only. */
  predicate SafeName(name: string) {
    !Rooted(name) && AllPlain(Parts(name))
  }

  predicate AllSafe(es: seq<Entry>) {
    forall i :: 0 <= i < |es| ==> SafeName(es[i].name)
  }

  function CountFiles(es: seq<Entry>): nat {
    if es == [] then 0 else (if es[0].kind == RegularFile then 1 else 0) + CountFiles(es[1..])
  }

  lemma SafeParts(name: string)
    requires !BadName(name)
    ensures SafeName(name) && Clean(name) == Render(false, Parts(name))
  {
    PartsShape(name);
    CleanTwice(name);
    var cs := Parts(name);
    var k :| ClimbsBy(Rooted(name), cs, k);
    if k > 0 { ClimbShows(cs, k); }
    assert cs[0..] == cs;
  }

  /** A path that climbs says so at its front. */
  lemma ClimbShows(cs: seq<string>, k: nat)
    requires ClimbsBy(false, cs, k) && k > 0
    ensures var c := Render(false, cs); "../" <= c || c == ".."
  {
    assert cs[0] == "..";
    if |cs| > 1 {
      assert Join(cs, "/") == ".." + "/" + Join(cs[1..], "/");
    }
  }

  lemma UpStart(c: string)
    requires "../" <= c || c == ".."
    ensures SplitOn(c, '/')[0] == ".."
  {
    if c == ".." {
      SplitWhole("..", '/');
    } else {
      assert c == ".." + (['/'] + c[3..]);
      SplitPiece("..", '/', c[3..]);
    }
  }

  /** Ordinary components written out show no climb. */
  lemma PlainShowsNone(cs: seq<string>)
    requires AllPlain(cs)
    ensures var c := Render(false, cs); !("../" <= c) && c != ".." && !Rooted(c)
  {
    if cs != [] {
      assert AllFree(cs, '/');
      SplitJoin(cs, '/');
      JoinStart(cs);
      var c := Join(cs, "/");
      if "../" <= c || c == ".." { UpStart(c); }
    }
  }

  /** Exactly the harmless names are accepted, however they are written. */
  lemma SafeIff(name: string)
    ensures !BadName(name) <==> SafeName(name)
  {
    if !BadName(name) {
      SafeParts(name);
    } else if SafeName(name) {
      CleanTwice(name);
      PlainShowsNone(Parts(name));
    }
  }

  lemma SafeNext(es: seq<Entry>, i: nat)
    requires i < |es| && AllSafe(es[..i])
    ensures if BadName(es[i].name) then !AllSafe(es) else AllSafe(es[..i + 1])
  {
    SafeIff(es[i].name);
    assert forall k :: 0 <= k < i ==> es[..i][k] == es[k];
  }

  method VerifyArchive(es: seq<Entry>) returns (valid: bool, fileCount: nat)
    ensures valid == AllSafe(es)
    ensures valid ==> fileCount == CountFiles(es)
  {
    fileCount := 0;
    var i := 0;
    while i < |es|
      invariant 0 <= i <= |es|
      invariant AllSafe(es[..i])
      invariant fileCount + CountFiles(es[i..]) == CountFiles(es)
    {
      assert es[i..][0] == es[i] && es[i..][1..] == es[i + 1..];
      SafeNext(es, i);
      if BadName(es[i].name) { return false, fileCount; }
      if es[i].kind == RegularFile { fileCount := fileCount + 1; }
      i := i + 1;
    }
    assert es[|es|..] == [] && es[..|es|] == es;
    return true, fileCount;
  }

  /** Where an entry goes below the directory `g`. */
  function Place(g: Path, e: Entry): Path {
    g + Parts(e.name)
  }

  /** One entry where no link is about: directories are made, files created or overwritten. */
  function Placed(t: Tree, p: Path, e: Entry): Step {
    match e.kind
    case Directory =>
      (match MadeAll(t, p) case None => Step(false, t) case Some(u) => Step(true, u))
    case RegularFile =>
      if p == [] then Step(false, t)
      else (match MadeAll(t, Parent(p))
            case None => Step(false, t)
            case Some(u) =>
              (match Overwritten(u, p, e.content) case None => Step(false, u) case Some(w) => Step(true, w)))
    case _ => Step(true, t)
  }

  /** The entries unpacked below `g`, up to the first that cannot be. */
  function Unpacked(t: Tree, g: Path, es: seq<Entry>): Step
    decreases |es|
  {
    if es == [] then Step(true, t)
    else
      var s := Placed(t, Place(g, es[0]), es[0]);
      if s.ok then Unpacked(s.tree, g, es[1..]) else s
  }

  const EMPTY: Tree := map[[] := Dir]

  /** The tree an archive stands for. */
  function ArchiveTree(es: seq<Entry>): Step {
    Unpacked(EMPTY, [], es)
  }

  // ----- Unpacking below a directory mirrors unpacking at the top -----

  ghost predicate Mirrors(t: Tree, g: Path, a: Tree) {
    forall r: Path :: (g + r in t <==> r in a) && (r in a ==> t[g + r] == a[r])
  }

  lemma MirrorAdd(t: Tree, g: Path, a: Tree, p: Path, n: Node)
    requires Mirrors(t, g, a)
    ensures Mirrors(t[g + p := n], g, a[p := n])
  {
    forall r: Path
      ensures (g + r in t[g + p := n] <==> r in a[p := n]) && (r in a[p := n] ==> t[g + p := n][g + r] == a[p := n][r])
    {
      assert (g + r)[|g|..] == r && (g + p)[|g|..] == p;
    }
  }

  lemma {:induction false} MirrorMade(t: Tree, g: Path, a: Tree, p: Path)
    requires Mirrors(t, g, a) && [] in a && a[[]] == Dir
    ensures MadeAll(t, g + p).Some? <==> MadeAll(a, p).Some?
    ensures MadeAll(a, p).Some? ==> Mirrors(MadeAll(t, g + p).value, g, MadeAll(a, p).value)
    decreases |p|
  {
    if p == [] {
      assert g + p == g && g + [] == g;
      assert p in a;
    } else {
      assert Parent(g + p) == g + Parent(p);
      if p !in a {
        MirrorMade(t, g, a, Parent(p));
        if MadeAll(a, Parent(p)).Some? { MirrorAdd(MadeAll(t, g + Parent(p)).value, g, MadeAll(a, Parent(p)).value, p, Dir); }
      }
    }
  }

  lemma MirrorWritten(t: Tree, g: Path, a: Tree, p: Path, c: string)
    requires Mirrors(t, g, a) && p != []
    ensures Overwritten(t, g + p, c).Some? <==> Overwritten(a, p, c).Some?
    ensures Overwritten(a, p, c).Some? ==> Mirrors(Overwritten(t, g + p, c).value, g, Overwritten(a, p, c).value)
  {
    assert Parent(g + p) == g + Parent(p);
    MirrorAdd(t, g, a, p, File(c));
  }

  lemma MirrorPlaced(t: Tree, g: Path, a: Tree, p: Path, e: Entry)
    requires Mirrors(t, g, a) && WellFormed(t) && WellFormed(a) && g != []
    ensures var x, y := Placed(t, g + p, e), Placed(a, p, e); x.ok == y.ok && (y.ok ==> Mirrors(x.tree, g, y.tree))
  {
    assert g + [] == g;
    match e.kind {
      case Directory =>
        MirrorMade(t, g, a, p);
      case RegularFile =>
        if p == [] {
          assert g + p == g && g in t && t[g] == Dir;
          MadeOwnParent(t, g);
        } else {
          assert Parent(g + p) == g + Parent(p);
          MirrorMade(t, g, a, Parent(p));
          if MadeAll(a, Parent(p)).Some? {
            MirrorWritten(MadeAll(t, g + Parent(p)).value, g, MadeAll(a, Parent(p)).value, p, e.content);
          }
        }
      case _ =>
    }
  }

  lemma PlacedContained(t: Tree, d: Path, p: Path, e: Entry)
    requires WellFormed(t) && d in t && t[d] == Dir && d <= p
    ensures var s := Placed(t, p, e);
            WellFormed(s.tree) && d in s.tree && s.tree[d] == Dir && SameOutside(t, s.tree, d)
  {
    var s := Placed(t, p, e);
    match e.kind {
      case Directory =>
        if MadeAll(t, p).Some? { MadeBelow(t, d, p); }
      case RegularFile =>
        if p != [] && MadeAll(t, Parent(p)).Some? {
          if p == d {
            MadeOwnParent(t, d);
          } else {
            assert d <= Parent(p);
            MadeBelow(t, d, Parent(p));
          }
          var u := MadeAll(t, Parent(p)).value;
          if Overwritten(u, p, e.content).Some? { PointKeeps(u, p, File(e.content)); }
        }
      case _ =>
    }
  }

  lemma MadeOwnParent(t: Tree, d: Path)
    requires WellFormed(t) && d in t && d != []
    ensures MadeAll(t, Parent(d)) == Some(t)
  {
  }

  /** Directories made below an existing one appear nowhere else. */
  lemma MadeBelow(t: Tree, d: Path, p: Path)
    requires WellFormed(t) && d in t && t[d] == Dir && d <= p && MadeAll(t, p).Some?
    ensures var u := MadeAll(t, p).value; WellFormed(u) && d in u && u[d] == Dir && SameOutside(t, u, d)
  {
    MadeAllIs(t, p);
    var u := MadeAll(t, p).value;
    forall q | q in u && !(d <= q) ensures q in t {
      if q !in t {
        OnePath(q, d, p);
        AncestorsIn(t, d, q);
      }
    }
  }

  lemma TopContained(a: Tree, p: Path, e: Entry)
    requires WellFormed(a)
    ensures WellFormed(Placed(a, p, e).tree)
  {
    assert [] <= p;
    PlacedContained(a, [], p, e);
  }

  /** The components of a plain path written out, pushed on those of a directory. */
  lemma SqueezeRendered(rooted: bool, cs: seq<string>, acc: seq<string>)
    requires AllPlain(cs)
    ensures Squeeze(rooted, SplitOn(Render(false, cs), '/'), acc) == acc + cs
  {
    if cs == [] {
      SplitWhole(".", '/');
      assert ["."][1..] == [] && acc + cs == acc;
    } else {
      assert AllFree(cs, '/');
      SplitJoin(cs, '/');
      SqueezePlain(rooted, cs, acc);
    }
  }

  /** A safe name, joined to the staging directory, keeps all its components. */
  lemma SafeNameJoins(dir: string, name: string)
    requires SafeName(name)
    ensures Key(JoinPath(Clean(dir), Clean(name))) == Key(Clean(dir)) + Parts(name)
  {
    CleanTwice(name);
    CleanTwice(dir);
    NonEmptyClean(dir);
    JoinParts(Clean(dir), Clean(name));
    SqueezeRendered(Rooted(dir), Parts(name), Parts(dir));
    CleanTwice(Clean(dir) + "/" + Clean(name));
    KeyAppend(if Rooted(dir) then "/" else ".", Parts(dir), Parts(name));
  }

  lemma KeyAppend(r: string, a: seq<string>, b: seq<string>)
    ensures [r] + (a + b) == [r] + a + b
  {
  }

  /** The staging directory so far: the image of `a`, which holds directories and files only. */
  ghost predicate Staged(t0: Tree, t: Tree, g: Path, a: Tree) {
    && WellFormed(t) && WellFormed(a) && Mirrors(t, g, a) && SameOutside(t0, t, g)
    && forall p :: p in a ==> Copied(a[p])
  }

  lemma StageStep(t0: Tree, t: Tree, g: Path, a: Tree, e: Entry)
    requires Staged(t0, t, g, a) && g != []
    ensures var x, y := StagedAt(t, Place(g, e), e), Placed(a, Place([], e), e);
            x.ok == y.ok && WellFormed(x.tree) && SameOutside(t0, x.tree, g) && (y.ok ==> Staged(t0, x.tree, g, y.tree))
  {
    var p := Parts(e.name);
    assert [] + p == p;
    assert g + [] == g && g <= g + p && g in t && t[g] == Dir;
    MirrorLinkFree(t, g, a);
    StagedIsPlaced(t, g, g + p, e);
    MirrorPlaced(t, g, a, p, e);
    PlacedContained(t, g, g + p, e);
    TopContained(a, p, e);
    PlacedRegular(a, p, e);
    OutsideTwice(t0, t, Placed(t, g + p, e).tree, g);
  }

  /** What is left to do after the first `i` entries, all of them safe. */
  ghost predicate Halfway(a: Tree, es: seq<Entry>, i: int, count: nat) {
    && 0 <= i <= |es| && Unpacked(a, [], es[i..]) == ArchiveTree(es) && count + CountFiles(es[i..]) == CountFiles(es)
    && forall k :: 0 <= k < i ==> SafeName(es[k].name)
  }

  lemma HalfwayNext(a: Tree, es: seq<Entry>, i: nat, count: nat)
    requires i < |es| && Halfway(a, es, i, count) && SafeName(es[i].name)
    ensures var s := Placed(a, Place([], es[i]), es[i]);
            && (s.ok ==> Halfway(s.tree, es, i + 1, count + if es[i].kind == RegularFile then 1 else 0))
            && (!s.ok ==> !ArchiveTree(es).ok)
  {
    assert es[i..][0] == es[i] && es[i..][1..] == es[i + 1..];
  }

  lemma HalfwayEnd(a: Tree, es: seq<Entry>, count: nat)
    requires Halfway(a, es, |es|, count)
    ensures ArchiveTree(es) == Step(true, a) && count == CountFiles(es) && AllSafe(es)
  {
    assert es[|es|..] == [];
  }

  /** What staging does with one entry; links are followed. */
  function StagedAt(t: Tree, p: Path, e: Entry): Step {
    match e.kind
    case Directory => CopyOne(t, Dir, p)
    case RegularFile => CopyOne(t, File(e.content), p)
    case _ => Step(true, t)
  }

  /** Below a directory without links, staging puts entries in their very places. */
  lemma StagedIsPlaced(t: Tree, g: Path, p: Path, e: Entry)
    requires WellFormed(t) && g != [] && DirAt(t, g) && LinkFree(t, g) && g <= p
    ensures StagedAt(t, p, e) == Placed(t, p, e)
  {
    StraightBelow(t, g, p);
    StraightPrefix(t, p, Parent(p));
    if e.kind == Directory {
      MadeStraight(t, p);
    } else if e.kind == RegularFile {
      MadeStraight(t, Parent(p));
      if MadeAll(t, Parent(p)).Some? {
        var u := MadeAll(t, Parent(p)).value;
        MadeAllIs(t, Parent(p));
        assert Straight(u, p);
        TruncatedStraight(u, p, e.content);
      }
    }
  }

  lemma StraightBelow(t: Tree, g: Path, p: Path)
    requires WellFormed(t) && DirAt(t, g) && LinkFree(t, g) && g <= p
    ensures Straight(t, p)
  {
    forall q | q <= p && q in t ensures !t[q].Link? {
      OnePath(q, g, p);
      if !(g <= q) { AncestorsIn(t, g, q); }
    }
  }

  /** The archive's tree holds no links, so its mirror image does not. */
  lemma MirrorLinkFree(t: Tree, g: Path, a: Tree)
    requires Mirrors(t, g, a) && forall p :: p in a ==> Copied(a[p])
    ensures LinkFree(t, g)
  {
    forall q | q in t && g <= q ensures !t[q].Link? { assert q == g + q[|g|..]; }
  }

  method StageEntry(fs: FileSystem, p: Path, e: Entry) returns (ok: bool)
    modifies fs
    ensures Step(ok, fs.tree) == StagedAt(old(fs.tree), p, e)
  {
    match e.kind {
      case Directory => ok := fs.CopyNode(Dir, p);
      case RegularFile => ok := fs.CopyNode(File(e.content), p);
      case _ => ok := true;
    }
  }

  /** The next entry goes below the staging directory, unless the disk fails or its name leaves it. */
  method StageOne(fs: FileSystem, g: Path, es: seq<Entry>, i: nat, count: nat, disk: Option<nat>, ghost t0: Tree, ghost a: Tree)
    returns (ok: bool, next: nat, ghost b: Tree)
    requires Staged(t0, fs.tree, g, a) && g != [] && i < |es| && Halfway(a, es, i, count)
    modifies fs
    ensures WellFormed(fs.tree) && SameOutside(t0, fs.tree, g)
    ensures ok ==> Staged(t0, fs.tree, g, b) && Halfway(b, es, i + 1, next)
    ensures !ok ==> disk.Some? || !AllSafe(es) || !ArchiveTree(es).ok
  {
    var e := es[i];
    next, b := count, a;
    if disk.Some? && disk.value <= i { return false, next, b; }
    SafeIff(e.name);
    if BadName(e.name) { return false, next, b; }
    HalfwayNext(a, es, i, count);
    StageStep(t0, fs.tree, g, a, e);
    ok := StageEntry(fs, Place(g, e), e);
    b := Placed(a, Place([], e), e).tree;
    if ok && e.kind == RegularFile { next := next + 1; }
  }

  /** `disk` counts the entries staged before the disk, or the archive, fails; none when neither does. */
  method StageEntries(fs: FileSystem, g: Path, es: seq<Entry>, disk: Option<nat>) returns (ok: bool, count: nat)
    requires WellFormed(fs.tree) && g != [] && Mirrors(fs.tree, g, EMPTY)
    modifies fs
    ensures WellFormed(fs.tree) && SameOutside(old(fs.tree), fs.tree, g)
    ensures ok ==> ArchiveTree(es).ok && Mirrors(fs.tree, g, ArchiveTree(es).tree) && count == CountFiles(es) && AllSafe(es)
    ensures disk == None && AllSafe(es) && ArchiveTree(es).ok ==> ok
  {
    count := 0;
    ghost var t0 := fs.tree;
    ghost var a := EMPTY;
    var i := 0;
    assert es[0..] == es;
    while i < |es|
      invariant 0 <= i <= |es|
      invariant Staged(t0, fs.tree, g, a) && Halfway(a, es, i, count)
    {
      ok, count, a := StageOne(fs, g, es, i, count, disk, t0, a);
      if !ok { return; }
      i := i + 1;
    }
    HalfwayEnd(a, es, count);
    return true, count;
  }

  // ----- The restore -----

  /** When the environment fails: the archive on either reading, and the disk during each of the three copies. */
  datatype Faults = Faults(readable: bool, reopens: bool, snapshot: Option<nat>, staging: Option<nat>, promotion: Option<nat>)

  datatype Outcome = Refused | Failed(rolledBack: bool) | Restored(files: nat)

  /** Where a restore works: the target, the rollback directory with the new snapshot in it, and the staging directory. */
  datatype Site = Site(target: Path, rollback: Path, stamp: string, stage: string) {
    function Snapshot(): Path { rollback + [stamp] }

    function Staging(): Path
      requires target != []
    {
      Parent(target) + [stage]
    }
  }

  /** Fresh names, and paths written with the links above them resolved; the target itself may be a link. */
  ghost predicate Usable(t: Tree, site: Site) {
    && site.target != [] && Straight(t, Parent(site.target)) && Straight(t, site.rollback)
    && site.Snapshot() !in t && site.Staging() !in t && site.Staging() != site.target
    && !(site.Snapshot() <= site.target) && Apart(site.Snapshot(), site.Staging())
  }

  /** The rollback directory is not the target, nor inside it. */
  predicate Outside(site: Site) {
    !(site.target <= site.rollback)
  }

  lemma OutsideIsApart(t: Tree, site: Site)
    requires Usable(t, site)
    ensures Outside(site) <==> Apart(site.Snapshot(), site.target)
    ensures Outside(site) ==> Shallow(site.target, site.Snapshot()) && Shallow(site.Snapshot(), site.target)
    ensures Parent(site.Snapshot()) == site.rollback
    ensures site.rollback == site.target ==> Shallow(site.target, site.Snapshot())
  {
    BelowSnapshot(site.target, site);
    if site.target <= site.Snapshot() && !Outside(site) { assert site.target <= site.rollback; }
    if site.target <= site.Snapshot() { UpToSnapshot(site); }
  }

  lemma UpToSnapshot(site: Site)
    requires site.target <= site.Snapshot()
    ensures site.target <= site.rollback || site.target == site.Snapshot()
  {
    if site.target != site.Snapshot() { assert |site.target| <= |site.rollback|; }
  }

  /** The tree once the rollback directory is there. */
  function WithRollback(t: Tree, site: Site): Tree {
    match MadeAll(t, site.rollback) case None => t case Some(u) => u
  }

  lemma RollbackIs(t: Tree, site: Site)
    requires WellFormed(t)
    ensures var u := WithRollback(t, site);
            && WellFormed(u) && Grown(t, u) && (forall q :: q in t ==> u[q] == t[q])
            && (forall q :: q in u && q !in t ==> u[q] == Dir && q <= site.rollback)
            && (MadeAll(t, site.rollback).Some? ==> DirAt(u, site.rollback))
  {
    if MadeAll(t, site.rollback).Some? { MadeAllIs(t, site.rollback); }
  }

  /** Outside target, snapshot and staging, everything is as before, but for directories made above them. */
  ghost predicate Framed(t0: Tree, t: Tree, site: Site)
    requires site.target != []
  {
    && (forall q :: q in t0 && Elsewhere(q, site) ==> q in t && t[q] == t0[q])
    && (forall q :: q in t && q !in t0 && Elsewhere(q, site) ==> t[q] == Dir && (q <= site.rollback || q <= site.target))
  }

  predicate Elsewhere(q: Path, site: Site)
    requires site.target != []
  {
    !(site.target <= q) && !(site.Snapshot() <= q) && !(site.Staging() <= q)
  }

  /** The snapshot holds the target as it was. */
  ghost predicate Snapshotted(t0: Tree, t: Tree, site: Site) {
    forall r: Path :: (site.Snapshot() + r in t <==> site.target + r in t0) &&
                      (site.target + r in t0 ==> t[site.Snapshot() + r] == t0[site.target + r])
  }

  lemma FramedStep(t0: Tree, t: Tree, u: Tree, site: Site, p: Path)
    requires site.target != [] && Framed(t0, t, site) && SameOutside(t, u, p)
    requires p == site.target || p == site.Snapshot() || p == site.Staging()
    ensures Framed(t0, u, site)
  {
  }

  lemma FramedMade(t0: Tree, t: Tree, site: Site, p: Path)
    requires site.target != [] && Framed(t0, t, site) && WellFormed(t) && MadeAll(t, p).Some?
    requires p == site.rollback || p == site.target || p == site.Staging()
    ensures var u := MadeAll(t, p).value; Framed(t0, u, site) && WellFormed(u) && p in u && u[p] == Dir
    ensures forall q :: q in t ==> q in MadeAll(t, p).value && MadeAll(t, p).value[q] == t[q]
    ensures forall q :: q in MadeAll(t, p).value && q !in t ==> q <= p
  {
    MadeAllIs(t, p);
    var u := MadeAll(t, p).value;
    forall q | q in u && q !in t0 && Elsewhere(q, site) ensures u[q] == Dir && (q <= site.rollback || q <= site.target) {
      if q !in t && p == site.Staging() { ShortPrefix(q, site); }
    }
  }

  lemma ShortPrefix(q: Path, site: Site)
    requires site.target != [] && q <= site.Staging() && Elsewhere(q, site)
    ensures q <= site.target
  {
    assert q != site.Staging();
    assert q <= Parent(site.target);
  }

  /** Nothing is lost, and what is new lies in the snapshot or is a directory above it. */
  ghost predicate OnlySnapshot(t0: Tree, t: Tree, site: Site) {
    && (forall q :: q in t0 ==> q in t && t[q] == t0[q])
    && (forall q :: q in t && q !in t0 ==> site.Snapshot() <= q || (q in WithRollback(t0, site) && t[q] == Dir))
  }

  lemma OnlySnapshotFrames(t0: Tree, t: Tree, site: Site)
    requires WellFormed(t0) && Usable(t0, site) && OnlySnapshot(t0, t, site)
    ensures Framed(t0, t, site) && site.Staging() !in t
    ensures Outside(site) ==> SameAt(t0, t, site.target)
  {
    OutsideIsApart(t0, site);
    RollbackIs(t0, site);
    BelowSnapshot(site.Staging(), site);
    if Outside(site) {
      forall q | site.target <= q && q in t ensures q in t0 {
        if q !in t0 && site.Snapshot() <= q { OnePath(site.Snapshot(), site.target, q); }
        if q !in t0 && !(site.Snapshot() <= q) { Through(site.target, q, site.rollback); }
      }
    }
  }

  /** Taking the snapshot. A target with the rollback directory further down in it cannot be copied there. */
  method TakeSnapshot(fs: FileSystem, site: Site, disk: Option<nat>) returns (ok: bool)
    requires WellFormed(fs.tree) && Usable(fs.tree, site) && site.target in fs.tree
    requires disk == None ==> !Deep(site.target, site.Snapshot())
    modifies fs
    ensures WellFormed(fs.tree) && Grown(old(fs.tree), fs.tree) && OnlySnapshot(old(fs.tree), fs.tree, site)
    ensures MadeAll(old(fs.tree), site.rollback).Some? ==> Grown(WithRollback(old(fs.tree), site), fs.tree)
    ensures ok && Regular(old(fs.tree), site.target) && Outside(site) ==> Snapshotted(old(fs.tree), fs.tree, site)
    ensures disk == None && MadeAll(old(fs.tree), site.rollback).Some? ==> ok
    ensures Deep(site.target, site.Snapshot()) ==> !ok
  {
    ghost var t0 := fs.tree;
    var s := site.Snapshot();
    OutsideIsApart(t0, site);
    MadeStraight(t0, site.rollback);
    RollbackIs(t0, site);
    ok := fs.MkdirAll(site.rollback);
    if !ok { return; }
    ghost var t1 := fs.tree;
    SnapshotFresh(t0, t1, site);
    EmptyHasNoConflict(t1, site.target, s);
    LinkFreeIsClosed(t1, s);
    ShallowOrDeep(site.target, s);
    ok := fs.CopyDirectory(site.target, s, disk);
    GrownTwice(t0, t1, fs.tree);
    SnapshotOnly(t0, t1, fs.tree, site);
    if ok && Regular(t0, site.target) && Outside(site) { SnapshotTaken(t0, t1, fs.tree, site); }
  }

  lemma SnapshotOnly(t0: Tree, t1: Tree, t: Tree, site: Site)
    requires WellFormed(t0) && site.Snapshot() !in t1 && t1 == WithRollback(t0, site)
    requires WellFormed(t1) && SameOutside(t1, t, site.Snapshot())
    ensures OnlySnapshot(t0, t, site)
  {
    RollbackIs(t0, site);
    NothingUnder(t1, site.Snapshot());
  }

  lemma SnapshotTaken(t0: Tree, t1: Tree, t: Tree, site: Site)
    requires Usable(t0, site) && Outside(site) && site.target in t0 && Regular(t0, site.target)
    requires SameAt(t0, t1, site.target) && forall q :: q in t1 ==> !(site.Snapshot() <= q)
    requires t == Overlay(t1, t1, site.target, site.Snapshot(), Sources(t1, site.target))
    ensures Snapshotted(t0, t, site)
  {
    OutsideIsApart(t0, site);
    CopyOverlays(t1, site.target, site.Snapshot());
    forall r: Path ensures site.Snapshot() + r !in t1 { assert site.Snapshot() <= site.Snapshot() + r; }
    forall r: Path ensures site.target + r in t1 <==> site.target + r in t0 { assert site.target <= site.target + r; }
    forall r: Path | site.target + r in t0 ensures t1[site.target + r] == t0[site.target + r] { assert site.target <= site.target + r; }
  }

  lemma SnapshotFresh(t0: Tree, t1: Tree, site: Site)
    requires WellFormed(t0) && WellFormed(t1) && Usable(t0, site)
    requires forall q :: q in t0 ==> q in t1 && t1[q] == t0[q]
    requires forall q :: q in t1 && q !in t0 ==> t1[q] == Dir && q <= site.rollback
    ensures Grown(t0, t1) && site.Snapshot() !in t1
    ensures (forall q :: q in t1 ==> !(site.Snapshot() <= q)) && LinkFree(t1, site.Snapshot())
    ensures Outside(site) ==> SameAt(t0, t1, site.target)
  {
    NothingUnder(t1, site.Snapshot());
    if Outside(site) {
      forall q | site.target <= q && q in t1 ensures q in t0 {
        if q !in t0 { Through(site.target, q, site.rollback); }
      }
    }
  }

  lemma BelowSnapshot(p: Path, site: Site)
    ensures p <= site.rollback ==> p <= site.Snapshot()
  {
  }

  lemma Through(a: Path, b: Path, c: Path)
    requires a <= b && b <= c
    ensures a <= c
  {
  }

  lemma OutsideApart(t: Tree, u: Tree, p: Path, q: Path)
    requires SameOutside(t, u, p) && Apart(p, q)
    ensures SameAt(t, u, q)
  {
    forall x | q <= x && (x in t || x in u) ensures !(p <= x) {
      if p <= x { OnePath(p, q, x); }
    }
  }

  // ----- Ways out of the target -----

  /** What a restore makes on its way: the snapshot, and directories above it and above the target. */
  ghost predicate OnTheWay(t0: Tree, t: Tree, site: Site, x: Path)
    requires x in t
  {
    x !in t0 && (site.Snapshot() <= x || (t[x] == Dir && (x in WithRollback(t0, site) || x <= site.target)))
  }

  /** The tree the archive is promoted in: the old one, the staging directory, and what was made on the way. */
  ghost predicate Prepared(t0: Tree, t: Tree, site: Site)
    requires site.target != []
  {
    && Grown(t0, t) && (forall q :: q in t0 ==> t[q] == t0[q])
    && (forall q :: q in t && q !in t0 ==> site.Staging() <= q || OnTheWay(t0, t, site, q))
  }

  lemma PreparedOutside(t0: Tree, t: Tree, u: Tree, site: Site)
    requires WellFormed(t0) && Usable(t0, site) && Prepared(t0, t, site) && Grown(t0, u) && SameOutside(t, u, site.Staging())
    ensures Prepared(t0, u, site)
  {
    NothingUnder(t0, site.Staging());
    forall q | q in u && q !in t0 ensures site.Staging() <= q || OnTheWay(t0, u, site, q) {
      if !(site.Staging() <= q) { assert OnTheWay(t0, t, site, q); }
    }
  }

  lemma PreparedMade(t0: Tree, t: Tree, u: Tree, site: Site)
    requires site.target != [] && Prepared(t0, t, site) && Grown(t0, u)
    requires (forall q :: q in t ==> q in u && u[q] == t[q])
    requires (forall q :: q in u && q !in t ==> site.Staging() <= q || (u[q] == Dir && q <= site.target))
    ensures Prepared(t0, u, site)
  {
    forall q | q in u && q !in t0 ensures site.Staging() <= q || OnTheWay(t0, u, site, q) {
      if q in t && !(site.Staging() <= q) { assert OnTheWay(t0, t, site, q); }
    }
  }

  /**
   No path below the target comes to lead to a place outside it that can be opened for writing,
   not even once the rollback directory, the snapshot and the staging directory are there.
   */
  ghost predicate Fenced(t: Tree, site: Site)
    requires site.target != []
  {
    forall p :: site.target <= p && Aim(t, p).Some? && Opening(t, site, Aim(t, p).value) ==> site.target <= Aim(t, p).value
  }

  ghost predicate Opening(t: Tree, site: Site, y: Path)
    requires site.target != []
  {
    Openable(WithRollback(t, site), y) || site.Snapshot() <= y || site.Staging() <= y
  }

  lemma StraightAim(t: Tree, p: Path)
    requires WellFormed(t) && Straight(t, p)
    ensures Aim(t, p) == Some(p)
  {
    assert [] + p == p;
    WalkStraight(t, [], p, MAX_LINKS);
  }

  lemma LinkFreeAim(t: Tree, d: Path, p: Path)
    requires WellFormed(t) && d != [] && Straight(t, Parent(d)) && LinkFree(t, d) && d <= p
    ensures Aim(t, p) == Some(p)
  {
    forall q | q <= p && q in t ensures !t[q].Link? {
      OnePath(q, d, p);
      if !(d <= q) { assert q <= Parent(d); }
    }
    StraightAim(t, p);
  }

  lemma LinkFreeIsFenced(t: Tree, site: Site)
    requires WellFormed(t) && Usable(t, site) && LinkFree(t, site.target)
    ensures Fenced(t, site)
  {
    forall p | site.target <= p ensures Aim(t, p) == Some(p) { LinkFreeAim(t, site.target, p); }
  }

  lemma OpenedSoon(t0: Tree, t: Tree, site: Site, y: Path)
    requires WellFormed(t0) && Usable(t0, site) && Prepared(t0, t, site) && Openable(t, y)
    requires Parent(site.target) in t0
    ensures Opening(t0, site, y) || site.target <= y
  {
    RollbackIs(t0, site);
    forall q | q <= site.target && q != site.target ensures q in t0 {
      assert q <= Parent(site.target);
      AncestorsIn(t0, Parent(site.target), q);
    }
    if y !in t0 && y in t && !(site.Staging() <= y) { assert OnTheWay(t0, t, site, y); }
    if y !in t && Parent(y) !in t0 {
      assert Parent(y) <= y;
      if !(site.Staging() <= Parent(y)) { assert OnTheWay(t0, t, site, Parent(y)); }
    }
  }

  /** A fenced target is closed whenever something is written through it. */
  lemma FencedIsClosed(t0: Tree, t: Tree, site: Site)
    requires WellFormed(t0) && WellFormed(t) && Usable(t0, site) && Prepared(t0, t, site) && Fenced(t0, site)
    ensures Closed(t, site.target)
  {
    if Parent(site.target) !in t0 { NothingUnder(t0, site.target); }
    forall p | site.target <= p && Landing(t, p).Some? ensures site.target <= Landing(t, p).value {
      AimKept(t0, t, p);
      AimLanding(t, p);
      if Parent(site.target) in t0 {
        OpenedSoon(t0, t, site, Landing(t, p).value);
      } else {
        LinkFreeAim(t0, site.target, p);
      }
    }
  }

  // ----- Rolling back -----

  /** Directories and files only, if anything at all. */
  ghost predicate OnlyCopies(t: Tree, d: Path) {
    forall q :: q in t && d <= q ==> Copied(t[q])
  }

  /** Rolling back: the target is removed and the snapshot copied in its place, if it is still there. */
  method PutBack(fs: FileSystem, site: Site, ghost t0: Tree)
    requires WellFormed(t0) && Usable(t0, site) && WellFormed(fs.tree) && DirAt(fs.tree, Parent(site.target))
    requires forall q :: q in fs.tree ==> !(site.Staging() <= q)
    modifies fs
    ensures WellFormed(fs.tree) && SameOutside(old(fs.tree), fs.tree, site.target)
    ensures forall q :: q in fs.tree ==> !(site.Staging() <= q)
    ensures OnlyCopies(fs.tree, site.target)
    ensures !Outside(site) ==> forall q :: q in fs.tree ==> !(site.target <= q)
    ensures Outside(site) && site.target in t0 && Regular(t0, site.target) && Snapshotted(t0, old(fs.tree), site) ==>
              SameAt(t0, fs.tree, site.target)
  {
    ghost var t1 := fs.tree;
    OutsideIsApart(t0, site);
    SiblingsApart(site);
    fs.RemoveAll(site.target);
    ghost var t2 := fs.tree;
    RemovedWellFormed(t1, site.target);
    EmptyHasNoConflict(t2, site.Snapshot(), site.target);
    LinkFreeIsClosed(t2, site.target);
    if !Outside(site) { BelowSnapshot(site.target, site); }
    var ok := fs.CopyDirectory(site.Snapshot(), site.target, None);
    OutsideTwice(t1, t2, fs.tree, site.target);
    StagingStaysAway(t2, fs.tree, site);
    if Outside(site) && site.target in t0 && Regular(t0, site.target) && Snapshotted(t0, t1, site) {
      BackAgain(t0, t1, t2, site);
    }
  }

  lemma StagingStaysAway(t: Tree, u: Tree, site: Site)
    requires site.target != [] && site.Staging() != site.target && SameOutside(t, u, site.target)
    requires forall q :: q in t ==> !(site.Staging() <= q)
    ensures forall q :: q in u ==> !(site.Staging() <= q)
  {
    var g := site.Staging();
    forall q | q in u ensures !(g <= q) {
      if g <= q && site.target <= q { OnePath(g, site.target, q); }
    }
  }

  /** The tree `t` holds at `s` what `t0` holds at `d`. */
  lemma SnapshotLeft(t0: Tree, t1: Tree, s: Path, d: Path, r: Path)
    requires Apart(s, d) && (s + r in t1 <==> d + r in t0) && (d + r in t0 ==> t1[s + r] == t0[d + r])
    ensures var t2 := Removed(t1, d); (s + r in t2 <==> d + r in t0) && (d + r in t0 ==> t2[s + r] == t0[d + r])
  {
    assert s <= s + r;
    if d <= s + r { OnePath(d, s, s + r); }
  }

  lemma SnapshotRegular(t0: Tree, t: Tree, site: Site)
    requires Regular(t0, site.target) && Snapshotted(t0, t, site)
    ensures Regular(t, site.Snapshot())
  {
    var s, d := site.Snapshot(), site.target;
    forall q | q in t && s <= q ensures Copied(t[q]) {
      assert q == s + q[|s|..];
      assert d <= d + q[|s|..];
    }
  }

  lemma SamePlaces(t: Tree, u: Tree, d: Path)
    requires forall r: Path :: (d + r in t <==> d + r in u) && (d + r in t ==> t[d + r] == u[d + r])
    ensures SameAt(t, u, d)
  {
    forall q | d <= q && (q in t || q in u) ensures q in t && q in u && t[q] == u[q] { assert q == d + q[|d|..]; }
  }

  /** The snapshot survives the removal of the target, and copying it back gives the old tree. */
  lemma BackAgain(t0: Tree, t1: Tree, t2: Tree, site: Site)
    requires site.target != [] && Apart(site.Snapshot(), site.target) && t2 == Removed(t1, site.target)
    requires Regular(t0, site.target) && Snapshotted(t0, t1, site) && site.target in t0
    ensures site.Snapshot() in t2
    ensures SameAt(t0, Overlay(t2, t2, site.Snapshot(), site.target, Sources(t2, site.Snapshot())), site.target)
  {
    var s, d := site.Snapshot(), site.target;
    forall r: Path ensures (s + r in t2 <==> d + r in t0) && (d + r in t0 ==> t2[s + r] == t0[d + r]) {
      SnapshotLeft(t0, t1, s, d, r);
    }
    assert s + [] == s && d + [] == d;
    SnapshotRegular(t0, t2, site);
    CopyOverlays(t2, s, d);
    var u := Overlay(t2, t2, s, d, Sources(t2, s));
    forall r: Path ensures (d + r in t0 <==> d + r in u) && (d + r in t0 ==> t0[d + r] == u[d + r]) {
      assert d <= d + r;
    }
    SamePlaces(t0, u, d);
  }

  // ----- Promoting the staged files -----

  lemma {:induction false} UnpackedRegular(a: Tree, g: Path, es: seq<Entry>)
    requires forall p :: p in a ==> Copied(a[p])
    ensures forall p :: p in Unpacked(a, g, es).tree ==> Copied(Unpacked(a, g, es).tree[p])
    decreases |es|
  {
    if es != [] {
      var s := Placed(a, Place(g, es[0]), es[0]);
      PlacedRegular(a, Place(g, es[0]), es[0]);
      if s.ok { UnpackedRegular(s.tree, g, es[1..]); }
    }
  }

  lemma {:induction false} MadeRegular(a: Tree, p: Path)
    requires (forall q :: q in a ==> Copied(a[q])) && MadeAll(a, p).Some?
    ensures forall q :: q in MadeAll(a, p).value ==> Copied(MadeAll(a, p).value[q])
    decreases |p|
  {
    if p !in a { MadeRegular(a, Parent(p)); }
  }

  lemma PlacedRegular(a: Tree, p: Path, e: Entry)
    requires forall q :: q in a ==> Copied(a[q])
    ensures forall q :: q in Placed(a, p, e).tree ==> Copied(Placed(a, p, e).tree[q])
  {
    if e.kind == Directory && MadeAll(a, p).Some? {
      MadeRegular(a, p);
    } else if e.kind == RegularFile && p != [] && MadeAll(a, Parent(p)).Some? {
      MadeRegular(a, Parent(p));
    }
  }

  lemma MirrorRegular(t: Tree, g: Path, a: Tree)
    requires Mirrors(t, g, a) && forall p :: p in a ==> Copied(a[p])
    ensures Regular(t, g)
  {
    forall q | q in t && g <= q ensures Copied(t[q]) { assert q == g + q[|g|..]; }
  }

  /** In `u`, the target is that of `t0` overlaid by the tree `a`. */
  ghost predicate TargetOverlaid(t0: Tree, u: Tree, d: Path, a: Tree) {
    forall r: Path ::
      && (d + r in u <==> d + r in t0 || r in a)
      && (r in a ==> u[d + r] == a[r])
      && (r !in a && d + r in t0 ==> u[d + r] == t0[d + r])
  }

  /** The copy from staging to the target overlays the archive's tree. */
  lemma PromotionOverlays(t0: Tree, t: Tree, g: Path, d: Path, a: Tree)
    requires Apart(g, d) && Mirrors(t, g, a) && (forall p :: p in a ==> Copied(a[p])) && [] in a
    requires forall q :: d <= q && q != d ==> (q in t <==> q in t0) && (q in t ==> t[q] == t0[q])
    ensures TargetOverlaid(t0, Overlay(t, t, g, d, Sources(t, g)), d, a)
  {
    MirrorRegular(t, g, a);
    CopyOverlays(t, g, d);
    var u := Overlay(t, t, g, d, Sources(t, g));
    forall r: Path
      ensures (d + r in u <==> d + r in t0 || r in a) && (r in a ==> u[d + r] == a[r])
      ensures r !in a && d + r in t0 ==> u[d + r] == t0[d + r]
    {
      assert d <= d + r && (d + r == d ==> r == []);
    }
  }

  /** Nothing in the target is of another kind than what the archive has in its place. */
  ghost predicate Fits(t0: Tree, d: Path, a: Tree) {
    forall r :: r in a && d + r in t0 ==> Compatible(t0[d + r], a[r])
  }

  lemma TargetInTheWay(t0: Tree, t: Tree, d: Path, a: Tree)
    requires d != [] && SameAt(t0, t, d) && [] in a && a[[]] == Dir && MadeAll(t, d).None?
    ensures !(Fits(t0, d, a) && Parent(d) in t && t[Parent(d)] == Dir)
  {
    if Parent(d) in t && t[Parent(d)] == Dir {
      MadeOne(t, d);
      assert d + [] == d;
    }
  }

  lemma FitsCopies(t0: Tree, t1: Tree, t2: Tree, g: Path, d: Path, a: Tree)
    requires Fits(t0, d, a) && SameAt(t0, t1, d) && Mirrors(t2, g, a) && [] in a && a[[]] == Dir
    requires (forall q :: q in t1 ==> q in t2 && t2[q] == t1[q]) && (forall q :: q in t2 && q !in t1 ==> q <= d)
    requires d in t2 && t2[d] == Dir
    ensures NoConflict(t2, g, d)
  {
    forall q | q in Sources(t2, g) && Moved(g, d, q) in t2 ensures Compatible(t2[Moved(g, d, q)], t2[q]) {
      var r := q[|g|..];
      assert q == g + r && Moved(g, d, q) == d + r;
      assert d <= d + r;
      if d + r !in t0 {
        assert d + r <= d;
        assert d + r == d && r == [];
      }
    }
  }

  /** What the archive's tree has for the target, each node with the place its path leads to. */
  function Shipped(t: Tree, d: Path, a: Tree): set<Good> {
    set r | r in a && Aim(t, d + r).Some? :: Good(Aim(t, d + r).value, a[r])
  }

  /** Every node of the archive's tree finds its directory, or its place, where its path leads. */
  ghost predicate Awaited(t: Tree, d: Path, a: Tree) {
    forall r :: r in a ==> Welcomed(t, Aim(t, d + r), a[r])
  }

  lemma ShippedKept(t: Tree, u: Tree, d: Path, a: Tree)
    requires WellFormed(t) && Grown(t, u)
    ensures Shipped(u, d, a) == Shipped(t, d, a)
  {
    forall r: Path ensures Aim(u, d + r) == Aim(t, d + r) { AimKept(t, u, d + r); }
  }

  lemma ShippedSource(t: Tree, g: Path, d: Path, a: Tree, r: Path)
    requires Mirrors(t, g, a) && r in a && Copied(a[r])
    ensures g + r in Sources(t, g) && t[g + r] == a[r] && Moved(g, d, g + r) == d + r
  {
    assert (g + r)[|g|..] == r;
  }

  /** Copying from the staging directory ships the archive's tree. */
  lemma GoodsAreShipped(t: Tree, g: Path, d: Path, a: Tree)
    requires Mirrors(t, g, a) && forall p :: p in a ==> Copied(a[p])
    ensures Goods(t, g, d, Sources(t, g)) == Shipped(t, d, a)
    ensures Awaited(t, d, a) ==> Welcome(t, g, d)
  {
    var x, y := Goods(t, g, d, Sources(t, g)), Shipped(t, d, a);
    forall q | q in Sources(t, g) ensures q[|g|..] in a && a[q[|g|..]] == t[q] && Moved(g, d, q) == d + q[|g|..] {
      assert q == g + q[|g|..];
    }
    forall r | r in a ensures g + r in Sources(t, g) && t[g + r] == a[r] && Moved(g, d, g + r) == d + r { ShippedSource(t, g, d, a, r); }
    forall e | e in y ensures e in x {
      var r :| r in a && Aim(t, d + r).Some? && e == Good(Aim(t, d + r).value, a[r]);
      assert g + r in Sources(t, g);
    }
    forall e | e in x ensures e in y {
      var q :| q in Sources(t, g) && Aim(t, Moved(g, d, q)).Some? && e == Good(Aim(t, Moved(g, d, q)).value, t[q]);
      assert q[|g|..] in a;
    }
  }

  /** The target's own directory, if it had to be made, is delivered like the rest. */
  lemma DeliveredFromTop(t1: Tree, t2: Tree, t: Tree, d: Path, a: Tree)
    requires WellFormed(t1) && d != [] && DirAt(t1, Parent(d)) && MadeDirs(t1, d) == Some(t2) && [] in a && a[[]] == Dir
    requires Delivered(t2, t, Shipped(t2, d, a))
    ensures Delivered(t1, t, Shipped(t1, d, a))
  {
    MadeTop(t1, d);
    MadeDirsGrow(t1, d);
    ShippedKept(t1, t2, d, a);
    assert d + [] == d;
    if t2 != t1 {
      BelowIsStraight(t1, d);
      StraightAim(t1, d);
      assert Good(d, Dir) in Shipped(t1, d, a);
    }
    forall x | x in t ensures Explained(t1, t, Shipped(t1, d, a), x) { assert Explained(t2, t, Shipped(t2, d, a), x); }
  }

  /** Where the whole tree is awaited, the target's directory is there. */
  lemma AwaitedTop(t: Tree, d: Path, a: Tree)
    requires WellFormed(t) && Awaited(t, d, a) && [] in a && a[[]] == Dir
    ensures MadeDirs(t, d) == Some(t)
  {
    assert d + [] == d;
    AimReal(t, d);
  }

  /** Copying the staged files into the target directory. */
  method Promote(fs: FileSystem, site: Site, ghost t0: Tree, ghost a: Tree, disk: Option<nat>) returns (ok: bool)
    requires WellFormed(t0) && Usable(t0, site) && WellFormed(fs.tree) && DirAt(fs.tree, Parent(site.target))
    requires Straight(fs.tree, Parent(site.target))
    requires Mirrors(fs.tree, site.Staging(), a) && [] in a && a[[]] == Dir && forall p :: p in a ==> Copied(a[p])
    requires disk == None ==> Misses(Shipped(fs.tree, site.target, a), site.Staging())
    modifies fs
    ensures WellFormed(fs.tree) && Grown(old(fs.tree), fs.tree)
    ensures Closed(old(fs.tree), site.target) ==> SameOutside(old(fs.tree), fs.tree, site.target)
    ensures LinkFree(old(fs.tree), site.target) && SameAt(t0, old(fs.tree), site.target) && ok ==>
              TargetOverlaid(t0, fs.tree, site.target, a)
    ensures disk == None && LinkFree(old(fs.tree), site.target) && SameAt(t0, old(fs.tree), site.target) && Fits(t0, site.target, a) ==> ok
    ensures Misses(Shipped(old(fs.tree), site.target, a), site.Staging()) && ok ==>
              Delivered(old(fs.tree), fs.tree, Shipped(old(fs.tree), site.target, a))
    ensures disk == None && Awaited(old(fs.tree), site.target, a) ==> ok
  {
    ghost var t1 := fs.tree;
    var g, d := site.Staging(), site.target;
    SiblingsApart(site);
    assert g + [] == g;
    if LinkFree(t1, d) {
      BelowIsStraight(t1, d);
      MadeStraight(t1, d);
      MadeOne(t1, d);
    }
    if Awaited(t1, d, a) { AwaitedTop(t1, d, a); }
    ok := fs.MkdirAll(d);
    if !ok {
      if LinkFree(t1, d) && SameAt(t0, t1, d) { TargetInTheWay(t0, t1, d, a); }
      return;
    }
    MadeDirsGrow(t1, d);
    ghost var t2 := fs.tree;
    MadeTop(t1, d);
    MirrorStaging(t1, t2, g, d, a);
    ShippedKept(t1, t2, d, a);
    GoodsAreShipped(t2, g, d, a);
    PromotionMayStart(t0, t1, t2, site, a);
    ok := fs.CopyDirectory(g, d, disk);
    GrownTwice(t1, t2, fs.tree);
    if Closed(t1, d) { OutsideTwice(t1, t2, fs.tree, d); }
    if LinkFree(t1, d) && ok && SameAt(t0, t1, d) { PromotionOverlays(t0, t2, g, d, a); }
    if ok && Misses(Shipped(t1, d, a), g) { DeliveredFromTop(t1, t2, fs.tree, d, a); }
  }

  lemma PromotionMayStart(t0: Tree, t1: Tree, t2: Tree, site: Site, a: Tree)
    requires WellFormed(t1) && WellFormed(t2) && Grown(t1, t2) && site.target != [] && DirAt(t1, Parent(site.target))
    requires MadeDirs(t1, site.target) == Some(t2) && Mirrors(t2, site.Staging(), a) && [] in a && a[[]] == Dir
    ensures Closed(t1, site.target) ==> SameOutside(t1, t2, site.target) && Closed(t2, site.target)
    ensures LinkFree(t1, site.target) ==> LinkFree(t2, site.target) && Closed(t1, site.target)
    ensures LinkFree(t1, site.target) && SameAt(t0, t1, site.target) && Fits(t0, site.target, a) ==> NoConflict(t2, site.Staging(), site.target)
  {
    var d := site.target;
    MadeTop(t1, d);
    if Closed(t1, d) { ClosedGrown(t1, t2, d); }
    if LinkFree(t1, d) {
      LinkFreeGrown(t1, t2, d);
      LinkFreeIsClosed(t1, d);
      BelowIsStraight(t1, d);
      MadeStraight(t1, d);
      MadeOne(t1, d);
      if SameAt(t0, t1, d) && Fits(t0, d, a) { FitsCopies(t0, t1, t2, site.Staging(), d, a); }
    }
  }

  /** Making the target's directory makes at most that one. */
  lemma MadeTop(t: Tree, d: Path)
    requires WellFormed(t) && d != [] && DirAt(t, Parent(d)) && MadeDirs(t, d).Some?
    ensures var u := MadeDirs(t, d).value; u == t || (d !in t && u == t[d := Dir])
  {
    ExistingIsStraight(t, Parent(d));
    RealItself(t, Parent(d));
    StraightSlot(t, d);
  }

  lemma MirrorStaging(t: Tree, u: Tree, g: Path, d: Path, a: Tree)
    requires WellFormed(t) && d != [] && DirAt(t, Parent(d)) && MadeDirs(t, d) == Some(u) && Apart(g, d) && Mirrors(t, g, a)
    ensures Mirrors(u, g, a) && (forall q :: q in t ==> q in u && u[q] == t[q]) && (forall q :: q in u && q !in t ==> q == d)
  {
    MadeTop(t, d);
    forall r: Path ensures (g + r in u <==> r in a) && (r in a ==> u[g + r] == a[r]) { assert g <= g + r; }
  }

  lemma SiblingsApart(site: Site)
    requires site.target != [] && site.Staging() != site.target
    ensures Apart(site.Staging(), site.target)
  {
    assert |site.Staging()| == |site.target|;
  }

  /** Directories made on the way to `d` appear nowhere under a path apart from it. */
  lemma AboveOnly(t: Tree, u: Tree, p: Path, d: Path)
    requires Apart(p, d)
    requires (forall q :: q in t ==> q in u && u[q] == t[q]) && (forall q :: q in u && q !in t ==> q <= d)
    ensures SameAt(t, u, p)
  {
    forall q | p <= q && q in u ensures q in t {
      if q !in t { Through(p, q, d); }
    }
  }

  lemma SnapshotKept(t0: Tree, t: Tree, u: Tree, site: Site)
    requires Snapshotted(t0, t, site) && SameAt(t, u, site.Snapshot())
    ensures Snapshotted(t0, u, site)
  {
    var s := site.Snapshot();
    forall r: Path
      ensures (s + r in u <==> site.target + r in t0) && (site.target + r in t0 ==> u[s + r] == t0[site.target + r])
    {
      assert s <= s + r;
    }
  }

  /** The staging directory, just made, holds nothing. */
  lemma FreshStaging(t: Tree, u: Tree, g: Path)
    requires WellFormed(t) && g !in t && MadeAll(t, g) == Some(u)
    ensures Mirrors(u, g, EMPTY)
  {
    NothingUnder(t, g);
    MadeAllIs(t, g);
    forall r: Path ensures (g + r in u <==> r in EMPTY) && (r in EMPTY ==> u[g + r] == EMPTY[r]) {
      assert g <= g + r;
      if r != [] { assert !(g + r <= g); } else { assert g + r == g; }
    }
  }

  /** Removing the staging directory leaves everything else. */
  lemma StagingGone(t0: Tree, t: Tree, site: Site)
    requires WellFormed(t) && Usable(t0, site)
    ensures var u := Removed(t, site.Staging());
            && WellFormed(u) && SameAt(t, u, site.target) && SameAt(t, u, site.Snapshot())
            && (Framed(t0, t, site) ==> Framed(t0, u, site))
            && (DirAt(t, Parent(site.target)) ==> DirAt(u, Parent(site.target)))
            && forall q :: q in u ==> !(site.Staging() <= q)
  {
    var g := site.Staging();
    var u := Removed(t, g);
    RemovedWellFormed(t, g);
    SiblingsApart(site);
    assert SameOutside(t, u, g);
    if Framed(t0, t, site) { FramedStep(t0, t, u, site, g); }
    OutsideApart(t, u, g, site.target);
    OutsideApart(t, u, g, site.Snapshot());
    assert !(g <= Parent(site.target));
  }

  // ----- The whole restore -----

  /** A good archive and an environment without failures. */
  predicate Sound(es: seq<Entry>, faults: Faults) {
    && faults.readable && faults.reopens && faults.snapshot == None && faults.staging == None && faults.promotion == None
    && AllSafe(es) && ArchiveTree(es).ok
  }

  lemma StraightNew(t: Tree, g: Path)
    requires g != [] && g !in t && Straight(t, Parent(g))
    ensures Straight(t, g)
  {
    forall q | q <= g && q in t ensures !t[q].Link? {
      assert q != g && |q| < |g|;
      assert q <= Parent(g);
    }
  }

  lemma StraightGrown(t: Tree, u: Tree, p: Path)
    requires Straight(t, p) && Grown(t, u)
    ensures Straight(u, p)
  {
    forall q | q <= p && q in u ensures !u[q].Link? {
      if q in t { assert Kept(t[q], u[q]); }
    }
  }

  /** The staging directory, and where it leaves everything else. */
  method MakeStaging(fs: FileSystem, site: Site, ghost t0: Tree) returns (ok: bool)
    requires WellFormed(t0) && Usable(t0, site) && WellFormed(fs.tree) && Framed(t0, fs.tree, site) && Prepared(t0, fs.tree, site)
    requires site.Staging() !in fs.tree
    modifies fs
    ensures WellFormed(fs.tree) && Framed(t0, fs.tree, site) && Prepared(t0, fs.tree, site) && Grown(old(fs.tree), fs.tree)
    ensures SameAt(old(fs.tree), fs.tree, site.target) && SameAt(old(fs.tree), fs.tree, site.Snapshot())
    ensures ok ==> Mirrors(fs.tree, site.Staging(), EMPTY) && DirAt(fs.tree, Parent(site.target))
    ensures !ok ==> fs.tree == old(fs.tree)
    ensures MadeAll(old(fs.tree), Parent(site.target)).Some? ==> ok
  {
    ghost var t1 := fs.tree;
    var g := site.Staging();
    assert Parent(g) == Parent(site.target);
    SiblingsApart(site);
    StraightGrown(t0, t1, Parent(g));
    StraightNew(t1, g);
    MadeStraight(t1, g);
    ok := fs.MkdirAll(g);
    if !ok { return; }
    MadeDirsGrow(t1, g);
    GrownTwice(t0, t1, fs.tree);
    FramedMade(t0, t1, site, g);
    StagingMade(t0, t1, fs.tree, site);
    FreshStaging(t1, fs.tree, g);
    AncestorsIn(fs.tree, g, Parent(g));
    AboveOnly(t1, fs.tree, site.target, g);
    AboveOnly(t1, fs.tree, site.Snapshot(), g);
  }

  lemma StagingMade(t0: Tree, t1: Tree, t2: Tree, site: Site)
    requires site.target != [] && Prepared(t0, t1, site) && Grown(t0, t2) && WellFormed(t1) && MadeAll(t1, site.Staging()) == Some(t2)
    ensures Prepared(t0, t2, site)
  {
    MadeAllIs(t1, site.Staging());
    forall q | q in t2 && q !in t1 ensures site.Staging() <= q || (t2[q] == Dir && q <= site.target) {
      if q != site.Staging() { assert q <= Parent(site.Staging()) == Parent(site.target); }
    }
    PreparedMade(t0, t1, t2, site);
  }

  lemma SameTwice(t: Tree, u: Tree, v: Tree, d: Path)
    requires SameAt(t, u, d) && SameAt(u, v, d)
    ensures SameAt(t, v, d)
  {
  }

  lemma LinkFreeSame(t: Tree, u: Tree, d: Path)
    requires LinkFree(t, d) && SameAt(t, u, d)
    ensures LinkFree(u, d)
  {
  }

  /** The archive's tree is shipped nowhere below the staging directory. */
  ghost predicate Avoids(t: Tree, site: Site, a: Tree)
    requires site.target != []
  {
    Misses(Shipped(t, site.target, a), site.Staging())
  }

  /** Everything shipped is in its place; the rest is old, or made on the way. */
  ghost predicate Arrived(t0: Tree, t: Tree, site: Site, a: Tree)
    requires site.target != []
  {
    && AllThere(t, Shipped(t0, site.target, a))
    && forall x :: x in t ==> site.Staging() <= x || Explained(t0, t, Shipped(t0, site.target, a), x) || OnTheWay(t0, t, site, x)
  }

  lemma ArrivedFrom(t0: Tree, t3: Tree, t: Tree, site: Site, a: Tree)
    requires WellFormed(t0) && site.target != [] && Prepared(t0, t3, site) && Grown(t3, t)
    requires Delivered(t3, t, Shipped(t3, site.target, a))
    ensures Arrived(t0, t, site, a)
  {
    ShippedKept(t0, t3, site.target, a);
    var goods := Shipped(t0, site.target, a);
    forall x | x in t ensures site.Staging() <= x || Explained(t0, t, goods, x) || OnTheWay(t0, t, site, x) {
      assert Explained(t3, t, goods, x);
      if x in t3 && x !in t0 && t[x] == t3[x] { assert site.Staging() <= x || OnTheWay(t0, t3, site, x); }
    }
  }

  /** Every node of the archive's tree finds its place once the rollback directory is there, and none goes into the snapshot. */
  ghost predicate AwaitedSoon(t0: Tree, site: Site, a: Tree)
    requires site.target != []
  {
    && Misses(Shipped(t0, site.target, a), site.Snapshot())
    && forall r :: r in a ==> Welcomed(WithRollback(t0, site), Aim(t0, site.target + r), a[r])
  }

  lemma WelcomeLater(t0: Tree, t: Tree, site: Site, g: Good)
    requires WellFormed(t0) && Usable(t0, site) && site.target in t0 && Prepared(t0, t, site) && Grown(WithRollback(t0, site), t)
    requires Welcomes(WithRollback(t0, site), g) && !(site.Snapshot() <= g.at) && !(site.Staging() <= g.at)
    ensures Welcomes(t, g)
  {
    RollbackIs(t0, site);
    var u := WithRollback(t0, site);
    if g.node.Dir? {
      assert Kept(u[g.at], t[g.at]);
    } else {
      assert Kept(u[Parent(g.at)], t[Parent(g.at)]);
      if g.at in u {
        assert Kept(u[g.at], t[g.at]);
      } else if g.at in t {
        assert OnTheWay(t0, t, site, g.at);
        AncestorsIn(t0, site.target, g.at);
      }
    }
  }

  lemma AwaitedNow(t0: Tree, t: Tree, site: Site, a: Tree)
    requires WellFormed(t0) && Usable(t0, site) && site.target in t0 && Prepared(t0, t, site) && Grown(WithRollback(t0, site), t)
    requires AwaitedSoon(t0, site, a) && Avoids(t0, site, a)
    ensures Awaited(t, site.target, a)
  {
    forall r | r in a ensures Welcomed(t, Aim(t, site.target + r), a[r]) {
      AimKept(t0, t, site.target + r);
      var g := Good(Aim(t0, site.target + r).value, a[r]);
      assert g in Shipped(t0, site.target, a);
      WelcomeLater(t0, t, site, g);
    }
  }

  /** Filling the staging directory adds directories and files below it. */
  lemma StagedGrown(t: Tree, u: Tree, g: Path, a: Tree)
    requires Mirrors(t, g, EMPTY) && Mirrors(u, g, a) && SameOutside(t, u, g)
    requires [] in a && a[[]] == Dir && forall p :: p in a ==> Copied(a[p])
    ensures Grown(t, u)
  {
    forall q | g <= q ensures q == g + q[|g|..] {}
    forall q | q in t ensures q in u && Kept(t[q], u[q]) {
      if g <= q { assert q[|g|..] in EMPTY; }
    }
    forall q | q in u && q !in t ensures Copied(u[q]) { assert q[|g|..] in a; }
  }

  /** What holds when the archive has been staged. */
  lemma Filled(t0: Tree, t2: Tree, t3: Tree, site: Site, a: Tree)
    requires WellFormed(t0) && WellFormed(t3) && Usable(t0, site) && Prepared(t0, t2, site)
    requires Mirrors(t2, site.Staging(), EMPTY) && Mirrors(t3, site.Staging(), a) && SameOutside(t2, t3, site.Staging())
    requires [] in a && a[[]] == Dir && forall p :: p in a ==> Copied(a[p])
    ensures Grown(t2, t3) && Prepared(t0, t3, site) && Shipped(t3, site.target, a) == Shipped(t0, site.target, a)
    ensures Fenced(t0, site) ==> Closed(t3, site.target)
    ensures (site.target in t0 && Grown(WithRollback(t0, site), t2) && AwaitedSoon(t0, site, a) && Avoids(t0, site, a)) ==>
              Awaited(t3, site.target, a)
  {
    StagedGrown(t2, t3, site.Staging(), a);
    GrownTwice(t0, t2, t3);
    PreparedOutside(t0, t2, t3, site);
    ShippedKept(t0, t3, site.target, a);
    if Fenced(t0, site) { FencedIsClosed(t0, t3, site); }
    if site.target in t0 && Grown(WithRollback(t0, site), t2) && AwaitedSoon(t0, site, a) && Avoids(t0, site, a) {
      GrownTwice(WithRollback(t0, site), t2, t3);
      AwaitedNow(t0, t3, site, a);
    }
  }

  /** Whatever happens in the staging directory alone. */
  lemma StagingOnly(t0: Tree, t2: Tree, t3: Tree, site: Site)
    requires Usable(t0, site) && Framed(t0, t2, site) && SameOutside(t2, t3, site.Staging()) && DirAt(t2, Parent(site.target))
    ensures Framed(t0, t3, site) && DirAt(t3, Parent(site.target))
    ensures SameAt(t2, t3, site.target) && SameAt(t2, t3, site.Snapshot())
    ensures LinkFree(t2, site.target) ==> LinkFree(t3, site.target)
    ensures SameAt(t0, t2, site.target) ==> SameAt(t0, t3, site.target)
  {
    SiblingsApart(site);
    FramedStep(t0, t2, t3, site, site.Staging());
    OutsideApart(t2, t3, site.Staging(), site.target);
    OutsideApart(t2, t3, site.Staging(), site.Snapshot());
    assert !(site.Staging() <= Parent(site.target));
  }

  /** Staging the archive and promoting it, in a staging directory already made. */
  method FillAndPromote(fs: FileSystem, es: seq<Entry>, site: Site, faults: Faults, ghost t0: Tree) returns (ok: bool, count: nat)
    requires WellFormed(t0) && Usable(t0, site) && WellFormed(fs.tree) && Framed(t0, fs.tree, site) && Prepared(t0, fs.tree, site)
    requires Mirrors(fs.tree, site.Staging(), EMPTY) && DirAt(fs.tree, Parent(site.target))
    requires faults.promotion == None ==> Avoids(t0, site, ArchiveTree(es).tree)
    modifies fs
    ensures WellFormed(fs.tree) && DirAt(fs.tree, Parent(site.target))
    ensures Fenced(t0, site) ==> Framed(t0, fs.tree, site)
    ensures Fenced(t0, site) && Outside(site) ==> SameAt(old(fs.tree), fs.tree, site.Snapshot())
    ensures ok ==> ArchiveTree(es).ok && count == CountFiles(es)
    ensures ok && LinkFree(old(fs.tree), site.target) && SameAt(t0, old(fs.tree), site.target) ==>
              TargetOverlaid(t0, fs.tree, site.target, ArchiveTree(es).tree)
    ensures ok && Avoids(t0, site, ArchiveTree(es).tree) ==> Arrived(t0, fs.tree, site, ArchiveTree(es).tree)
    ensures (Sound(es, faults) && LinkFree(old(fs.tree), site.target) && SameAt(t0, old(fs.tree), site.target) &&
             Fits(t0, site.target, ArchiveTree(es).tree)) ==> ok
    ensures (Sound(es, faults) && site.target in t0 && Grown(WithRollback(t0, site), old(fs.tree)) &&
             AwaitedSoon(t0, site, ArchiveTree(es).tree)) ==> ok
  {
    ghost var t2 := fs.tree;
    ok, count := StageEntries(fs, site.Staging(), es, faults.staging);
    ghost var t3 := fs.tree;
    StagingOnly(t0, t2, t3, site);
    if !ok { return; }
    UnpackedRegular(EMPTY, [], es);
    TopKept(EMPTY, [], es);
    ghost var a := ArchiveTree(es).tree;
    Filled(t0, t2, t3, site, a);
    ExistingIsStraight(t3, Parent(site.target));
    ok := Promote(fs, site, t0, a, faults.promotion);
    Promoted(t0, t2, t3, fs.tree, site);
    if ok && Avoids(t0, site, a) { ArrivedFrom(t0, t3, fs.tree, site, a); }
  }

  lemma Promoted(t0: Tree, t2: Tree, t3: Tree, t: Tree, site: Site)
    requires Usable(t0, site) && DirAt(t3, Parent(site.target)) && Grown(t3, t) && Framed(t0, t3, site)
    requires Fenced(t0, site) ==> SameOutside(t3, t, site.target)
    requires SameAt(t2, t3, site.Snapshot())
    ensures DirAt(t, Parent(site.target))
    ensures Fenced(t0, site) ==> Framed(t0, t, site)
    ensures Fenced(t0, site) && Outside(site) ==> SameAt(t2, t, site.Snapshot())
  {
    assert Kept(t3[Parent(site.target)], t[Parent(site.target)]);
    if Fenced(t0, site) {
      FramedStep(t0, t3, t, site, site.target);
      OutsideIsApart(t0, site);
      if Outside(site) {
        OutsideApart(t3, t, site.target, site.Snapshot());
        SameTwice(t2, t3, t, site.Snapshot());
      }
    }
  }

  /** Removing the staging directory takes nothing away that was shipped elsewhere. */
  lemma ArrivedKept(t0: Tree, t: Tree, site: Site, a: Tree)
    requires site.target != [] && Arrived(t0, t, site, a) && Avoids(t0, site, a)
    ensures Arrived(t0, Removed(t, site.Staging()), site, a)
  {
    var u, goods := Removed(t, site.Staging()), Shipped(t0, site.target, a);
    forall x | x in u ensures site.Staging() <= x || Explained(t0, u, goods, x) || OnTheWay(t0, u, site, x) {
      assert site.Staging() <= x || Explained(t0, t, goods, x) || OnTheWay(t0, t, site, x);
    }
  }

  /** Staging and promotion, once the snapshot is taken; the staging directory is always removed. */
  method StageAndPromote(fs: FileSystem, es: seq<Entry>, site: Site, faults: Faults, ghost t0: Tree) returns (r: Outcome)
    requires WellFormed(t0) && Usable(t0, site) && WellFormed(fs.tree) && Framed(t0, fs.tree, site) && Prepared(t0, fs.tree, site)
    requires site.Staging() !in fs.tree
    requires faults.promotion == None ==> Avoids(t0, site, ArchiveTree(es).tree)
    modifies fs
    ensures WellFormed(fs.tree) && forall q :: q in fs.tree ==> !(site.Staging() <= q)
    ensures r.Refused? || Fenced(t0, site) ==> Framed(t0, fs.tree, site)
    ensures r.Refused? ==> SameAt(old(fs.tree), fs.tree, site.target)
    ensures Fenced(t0, site) && Outside(site) ==> SameAt(old(fs.tree), fs.tree, site.Snapshot())
    ensures r.Restored? ==> ArchiveTree(es).ok && r.files == CountFiles(es)
    ensures r.Restored? && LinkFree(t0, site.target) && SameAt(t0, old(fs.tree), site.target) ==>
              TargetOverlaid(t0, fs.tree, site.target, ArchiveTree(es).tree)
    ensures r.Restored? && Avoids(t0, site, ArchiveTree(es).tree) ==> Arrived(t0, fs.tree, site, ArchiveTree(es).tree)
    ensures r.Failed? ==> !r.rolledBack && DirAt(fs.tree, Parent(site.target))
    ensures !faults.reopens ==> r.Refused?
    ensures (Sound(es, faults) && LinkFree(t0, site.target) && SameAt(t0, old(fs.tree), site.target) &&
             Fits(t0, site.target, ArchiveTree(es).tree) && MadeAll(old(fs.tree), Parent(site.target)).Some?) ==> r.Restored?
    ensures (Sound(es, faults) && site.target in t0 && Grown(WithRollback(t0, site), old(fs.tree)) &&
             AwaitedSoon(t0, site, ArchiveTree(es).tree) && MadeAll(old(fs.tree), Parent(site.target)).Some?) ==> r.Restored?
  {
    ghost var t1 := fs.tree;
    var ok := MakeStaging(fs, site, t0);
    ghost var t2 := fs.tree;
    if !ok {
      NothingUnder(t1, site.Staging());
      return Refused;
    }
    StillAsBefore(t0, t1, t2, site);
    if !faults.reopens {
      StagingGone(t0, t2, site);
      fs.RemoveAll(site.Staging());
      SameTwice(t1, t2, fs.tree, site.target);
      SameTwice(t1, t2, fs.tree, site.Snapshot());
      return Refused;
    }
    var count;
    ok, count := FillAndPromote(fs, es, site, faults, t0);
    ghost var t4 := fs.tree;
    StagingGone(t0, t4, site);
    StagingCleared(t0, t1, t2, t4, site, ArchiveTree(es).tree);
    fs.RemoveAll(site.Staging());
    if !ok { return Failed(false); }
    return Restored(count);
  }

  /** Making the staging directory changes nothing about the target. */
  lemma StillAsBefore(t0: Tree, t1: Tree, t2: Tree, site: Site)
    requires site.target != [] && Grown(t0, t1) && Grown(t1, t2) && SameAt(t1, t2, site.target)
    ensures LinkFree(t0, site.target) ==> LinkFree(t2, site.target)
    ensures SameAt(t0, t1, site.target) ==> SameAt(t0, t2, site.target)
    ensures Grown(WithRollback(t0, site), t1) ==> Grown(WithRollback(t0, site), t2)
  {
    if LinkFree(t0, site.target) {
      LinkFreeGrown(t0, t1, site.target);
      LinkFreeSame(t1, t2, site.target);
    }
    if SameAt(t0, t1, site.target) { SameTwice(t0, t1, t2, site.target); }
    if Grown(WithRollback(t0, site), t1) { GrownTwice(WithRollback(t0, site), t1, t2); }
  }

  /** What was promoted stays when the staging directory is removed. */
  lemma StagingCleared(t0: Tree, t1: Tree, t2: Tree, t: Tree, site: Site, a: Tree)
    requires WellFormed(t) && Usable(t0, site) && SameAt(t1, t2, site.Snapshot())
    ensures var u := Removed(t, site.Staging());
            && (SameAt(t2, t, site.Snapshot()) ==> SameAt(t1, u, site.Snapshot()))
            && (TargetOverlaid(t0, t, site.target, a) ==> TargetOverlaid(t0, u, site.target, a))
            && (Arrived(t0, t, site, a) && Avoids(t0, site, a) ==> Arrived(t0, u, site, a))
  {
    var u := Removed(t, site.Staging());
    StagingGone(t0, t, site);
    if SameAt(t2, t, site.Snapshot()) {
      SameTwice(t1, t2, t, site.Snapshot());
      SameTwice(t1, t, u, site.Snapshot());
    }
    if TargetOverlaid(t0, t, site.target, a) { OverlaidKept(t0, t, u, site.target, a); }
    if Arrived(t0, t, site, a) && Avoids(t0, site, a) { ArrivedKept(t0, t, site, a); }
  }

  lemma OverlaidKept(t0: Tree, t: Tree, u: Tree, d: Path, a: Tree)
    requires TargetOverlaid(t0, t, d, a) && SameAt(t, u, d)
    ensures TargetOverlaid(t0, u, d, a)
  {
    forall r: Path
      ensures (d + r in u <==> d + r in t0 || r in a) && (r in a ==> u[d + r] == a[r])
      ensures r !in a && d + r in t0 ==> u[d + r] == t0[d + r]
    {
      assert d <= d + r;
    }
  }

  lemma {:induction false} TopKept(a: Tree, g: Path, es: seq<Entry>)
    requires WellFormed(a) && g == []
    ensures [] in Unpacked(a, g, es).tree && Unpacked(a, g, es).tree[[]] == Dir
    decreases |es|
  {
    if es != [] {
      TopContained(a, Place(g, es[0]), es[0]);
      var s := Placed(a, Place(g, es[0]), es[0]);
      if s.ok { TopKept(s.tree, g, es[1..]); }
    }
  }

  /** The directories above the snapshot and the target exist or can be made. */
  ghost predicate Reachable(t: Tree, site: Site)
    requires site.target != []
  {
    if site.target in t then MadeAll(t, site.rollback).Some? else MadeAll(t, Parent(site.target)).Some?
  }

  lemma RegularIsLinkFree(t: Tree, d: Path)
    requires Regular(t, d)
    ensures LinkFree(t, d)
  {
  }

  /** A tree of copies is not the old one when that held something that is never copied. */
  lemma NotRegularDiffers(t0: Tree, t: Tree, d: Path)
    requires !Regular(t0, d) && OnlyCopies(t, d)
    ensures !SameAt(t0, t, d)
  {
    var q :| q in t0 && d <= q && !Copied(t0[q]);
    assert q in t ==> Copied(t[q]);
  }

  predicate Exists(t: Tree, p: Path) {
    Real(t, p).Some?
  }

  lemma ExistsIn(t: Tree, site: Site)
    requires WellFormed(t) && Usable(t, site) && Exists(t, site.target)
    ensures site.target in t && DirAt(t, Parent(site.target))
  {
    if site.target !in t {
      StraightNew(t, site.target);
      StraightReal(t, site.target);
    }
  }

  lemma SnapshotPrepares(t0: Tree, t: Tree, site: Site)
    requires site.target != [] && Grown(t0, t) && OnlySnapshot(t0, t, site)
    ensures Prepared(t0, t, site)
  {
    forall q | q in t && q !in t0 ensures OnTheWay(t0, t, site, q) {}
  }

  /** What every end of a restore has in common, whatever the links in the target. */
  ghost predicate Ends(t0: Tree, t: Tree, es: seq<Entry>, site: Site, faults: Faults, r: Outcome)
    requires site.target != []
  {
    && (r.Refused? || Fenced(t0, site) ==> Framed(t0, t, site))
    && (r.Restored? && Avoids(t0, site, ArchiveTree(es).tree) ==> Arrived(t0, t, site, ArchiveTree(es).tree))
    && (Sound(es, faults) && Outside(site) && Exists(t0, site.target) && Reachable(t0, site) && AwaitedSoon(t0, site, ArchiveTree(es).tree) ==>
         r.Restored?)
  }

  /**
   The disk may be without failures only where every copy is sure to end: a snapshot further
   down in the target is met again by its own copy, and so is a staging directory that links in
   the target lead to.
   */
  ghost predicate MayRun(t: Tree, es: seq<Entry>, site: Site, faults: Faults) {
    && WellFormed(t) && Usable(t, site)
    && (faults.snapshot == None ==> !Deep(site.target, site.Snapshot()))
    && (faults.promotion == None ==> Avoids(t, site, ArchiveTree(es).tree))
  }

  /** Verify, snapshot, stage, promote; on a failure after the snapshot the target is put back. */
  method RestoreArchive(fs: FileSystem, es: seq<Entry>, site: Site, faults: Faults) returns (r: Outcome)
    requires MayRun(fs.tree, es, site, faults)
    modifies fs
    // nothing else changes, unless links in the target lead out of it; then everything is where they lead
    ensures Ends(old(fs.tree), fs.tree, es, site, faults, r)
    ensures forall q :: q in fs.tree ==> !(site.Staging() <= q)
    // an archive that cannot be read or holds a harmful name is refused before anything is touched
    ensures !faults.readable || (exists e :: e in es && !SafeName(e.name)) ==> r.Refused? && fs.tree == old(fs.tree)
    ensures !faults.reopens ==> r.Refused?
    // a refusal leaves the target; a failure puts back exactly what can be copied
    ensures Exists(old(fs.tree), site.target) && Outside(site) && r.Refused? ==> SameAt(old(fs.tree), fs.tree, site.target)
    ensures Exists(old(fs.tree), site.target) && Outside(site) && r.Failed? ==>
              (SameAt(old(fs.tree), fs.tree, site.target) <==> Regular(old(fs.tree), site.target))
    ensures r.Failed? ==> (r.rolledBack <==> Exists(old(fs.tree), site.target))
    // a rollback directory in the target: the target itself loses everything, one further down is never filled
    ensures Exists(old(fs.tree), site.target) && site.rollback == site.target && r.Failed? ==>
              forall q :: q in fs.tree ==> !(site.target <= q)
    ensures Exists(old(fs.tree), site.target) && Deep(site.target, site.Snapshot()) ==>
              r.Refused? && OnlySnapshot(old(fs.tree), fs.tree, site)
    // success
    ensures r.Restored? ==> AllSafe(es) && ArchiveTree(es).ok && r.files == CountFiles(es)
    ensures r.Restored? && LinkFree(old(fs.tree), site.target) && (Outside(site) || !Exists(old(fs.tree), site.target)) ==>
              TargetOverlaid(old(fs.tree), fs.tree, site.target, ArchiveTree(es).tree)
    ensures (Sound(es, faults) && LinkFree(old(fs.tree), site.target) && Fits(old(fs.tree), site.target, ArchiveTree(es).tree) &&
             Reachable(old(fs.tree), site) && (Outside(site) || !Exists(old(fs.tree), site.target))) ==> r.Restored?
  {
    ghost var t0 := fs.tree;
    NothingUnder(t0, site.Staging());
    OutsideIsApart(t0, site);
    var valid, total := VerifyArchive(es);
    if !faults.readable || !valid { return Refused; }
    var targetExists := Exists(fs.tree, site.target);
    if targetExists {
      ExistsIn(t0, site);
      var ok := TakeSnapshot(fs, site, faults.snapshot);
      OnlySnapshotFrames(t0, fs.tree, site);
      if !ok {
        NothingUnder(fs.tree, site.Staging());
        return Refused;
      }
    }
    ghost var t1 := fs.tree;
    SnapshotPrepares(t0, t1, site);
    r := StageAndPromote(fs, es, site, faults, t0);
    ghost var t2 := fs.tree;
    if Outside(site) && r.Refused? { SameTwice(t0, t1, t2, site.target); }
    if r.Failed? && targetExists {
      if Regular(t0, site.target) && Outside(site) {
        RegularIsLinkFree(t0, site.target);
        LinkFreeIsFenced(t0, site);
        SnapshotKept(t0, t1, t2, site);
      }
      PutBack(fs, site, t0);
      if Fenced(t0, site) { FramedStep(t0, t2, fs.tree, site, site.target); }
      if !Regular(t0, site.target) { NotRegularDiffers(t0, fs.tree, site.target); }
      r := Failed(true);
    }
  }
}
