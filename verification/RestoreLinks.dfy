/**
 Restoring over a target with links: exactly when a restore can change anything outside it.
 */
module RestoreLinks {
  import opened Text
  import opened Paths
  import opened FileTree
  import opened Links
  import opened Copying
  import opened CopyWalk
  import opened Archive
  import opened Restore

  const NO_FAULTS := Faults(true, true, None, None, None)

  // ----- Fresh names -----

  /** No link has the name in its destination. */
  ghost predicate Unnamed(t: Tree, name: string) {
    forall q :: q in t && t[q].Link? ==> name !in t[q].to
  }

  /** What a walk leaves over is taken from the path it started with and from the links it followed. */
  lemma {:induction false} LeftNames(t: Tree, at: Path, rest: Path, hops: nat, name: string)
    requires Unnamed(t, name) && name !in rest && Walk(t, at, rest, hops).Way?
    ensures name !in Walk(t, at, rest, hops).left
    decreases hops, |rest|
  {
    if rest != [] && at in t && t[at] == Dir {
      var next := at + [rest[0]];
      WalkFirst(t, at, rest, hops);
      if next in t && !t[next].Link? {
        LeftNames(t, next, rest[1..], hops, name);
      } else if next in t && hops > 0 {
        LeftNames(t, [], t[next].to + rest[1..], hops - 1, name);
      }
    }
  }

  lemma Within(at: Path, left: Path, q: Path, name: string)
    requires q + [name] <= at + left
    ensures q + [name] <= at || name in left
  {
    if |q| < |at| {
      assert q + [name] == (at + left)[..|q| + 1] == at[..|q| + 1];
    } else {
      assert (at + left)[|q|] == left[|q| - |at|];
    }
  }

  /** A walk that does not come across a fresh name does not end below it. */
  lemma NotBelowFresh(t: Tree, rest: Path, hops: nat, q: Path, name: string)
    requires WellFormed(t) && Unnamed(t, name) && name !in rest && Walk(t, [], rest, hops).Way? && q + [name] !in t
    ensures var w := Walk(t, [], rest, hops); !(q + [name] <= w.at + w.left)
  {
    var w := Walk(t, [], rest, hops);
    LeftNames(t, [], rest, hops, name);
    WalkEnd(t, [], rest, hops);
    NothingUnder(t, q + [name]);
    if q + [name] <= w.at + w.left { Within(w.at, w.left, q, name); }
  }

  /** Where a path leads with one name more: further along, or through a link. */
  lemma AimNext(t: Tree, p: Path, c: string) returns (h: nat)
    requires WellFormed(t) && Aim(t, p).Some? && Aim(t, p + [c]).Some?
    ensures var z := Aim(t, p).value;
            if z + [c] in t && t[z + [c]].Link? then
              Walk(t, [], t[z + [c]].to, h).Way? &&
              Aim(t, p + [c]).value == Walk(t, [], t[z + [c]].to, h).at + Walk(t, [], t[z + [c]].to, h).left
            else Aim(t, p + [c]).value == z + [c]
  {
    h := WalkOn(t, [], p, c, MAX_LINKS);
    WalkEnd(t, [], p, MAX_LINKS);
    var w := Lead(t, p);
    if w.left == [] {
      var q := w.at + [c];
      assert w.at + w.left == w.at && [c][0] == c && [c][1..] == [] && q + [] == q;
      if t[w.at] == Dir {
        WalkFirst(t, w.at, [c], h);
        if q in t && t[q].Link? {
          assert t[q].to + [] == t[q].to;
          h := h - 1;
        }
      } else if q in t {
        AncestorsIn(t, q, w.at);
      }
    } else {
      AssocOf(w.at, w.left, [c]);
      NotThere(t, w.at, w.left);
      NothingUnder(t, w.at + w.left);
    }
  }

  lemma PrefixLoops(t: Tree, p: Path, c: string)
    requires WellFormed(t) && Aim(t, p + [c]).Some?
    ensures Aim(t, p).Some?
  {
    var h := WalkOn(t, [], p, c, MAX_LINKS);
  }

  // ----- Where a restore can get -----

  /** A target that is a directory, or a link to one, and a rollback directory outside it, with names no link knows. */
  ghost predicate Usual(t: Tree, site: Site) {
    && WellFormed(t) && Usable(t, site) && Outside(site)
    && Unnamed(t, site.stamp) && Unnamed(t, site.stage)
    && Real(t, site.target).Some? && t[Real(t, site.target).value] == Dir
    && MadeAll(t, site.rollback).Some?
  }

  lemma UsualParent(t: Tree, site: Site)
    requires Usual(t, site)
    ensures site.target in t && DirAt(t, Parent(site.target)) && DirAt(t, Real(t, site.target).value)
    ensures Aim(t, site.target) == Real(t, site.target) == Real(WithRollback(t, site), site.target)
  {
    ExistsIn(t, site);
    AimReal(t, site.target);
    RollbackIs(t, site);
    AimKept(t, WithRollback(t, site), site.target);
    AimReal(WithRollback(t, site), site.target);
  }

  /** A path leads below the fresh place `q + [name]`: not so unless it leads to `q` first. */
  lemma FreshStep(t: Tree, q: Path, name: string, p: Path, c: string)
    requires WellFormed(t) && Unnamed(t, name) && q + [name] !in t && Aim(t, p + [c]).Some? && q + [name] <= Aim(t, p + [c]).value
    ensures Aim(t, p).Some? && (q + [name] <= Aim(t, p).value || Aim(t, p).value == q)
    ensures Aim(t, p).Some? && Aim(t, p + [c]).value == Aim(t, p).value + [c]
  {
    PrefixLoops(t, p, c);
    var h := AimNext(t, p, c);
    var z := Aim(t, p).value;
    if z + [c] in t && t[z + [c]].Link? { NotBelowFresh(t, t[z + [c]].to, h, q, name); }
    if z + [c] == q + [name] {
      assert z == (z + [c])[..|z|] && q == (q + [name])[..|q|];
    } else if q + [name] <= z + [c] {
      assert q + [name] <= z;
    }
  }

  /** No path below a closed directory leads to a fresh place in a directory outside it. */
  lemma {:induction false} FreshIsMissed(t: Tree, u: Tree, d: Path, q: Path, name: string, p: Path)
    requires WellFormed(t) && WellFormed(u) && Grown(t, u) && Closed(u, d) && d <= p && d != []
    requires DirAt(u, q) && !(d <= q) && Unnamed(t, name) && q + [name] !in t
    requires Aim(t, d).Some? && Aim(t, d).value in t && Aim(t, p).Some?
    ensures !(q + [name] <= Aim(t, p).value)
    decreases |p|
  {
    if q + [name] <= Aim(t, p).value {
      NothingUnder(t, q + [name]);
      assert p != d;
      var a, c := Parent(p), p[|p| - 1];
      LastOf(p);
      assert d <= a;
      FreshStep(t, q, name, a, c);
      NotThroughClosed(t, u, d, q, a);
      FreshIsMissed(t, u, d, q, name, a);
    }
  }

  lemma NotThroughClosed(t: Tree, u: Tree, d: Path, q: Path, a: Path)
    requires WellFormed(t) && WellFormed(u) && Grown(t, u) && Closed(u, d) && d <= a && DirAt(u, q) && !(d <= q)
    ensures Aim(t, a) != Some(q)
  {
    AimKept(t, u, a);
    AimLanding(u, a);
  }

  /** With fresh names, fenced means closed once the rollback directory is there. */
  lemma FencedIff(t: Tree, site: Site)
    requires Usual(t, site)
    ensures Fenced(t, site) <==> Closed(WithRollback(t, site), site.target)
  {
    var u := WithRollback(t, site);
    RollbackIs(t, site);
    UsualParent(t, site);
    assert DirAt(u, Parent(site.target)) && DirAt(u, site.rollback);
    forall p | site.target <= p ensures Aim(u, p) == Aim(t, p) { AimKept(t, u, p); }
    if Closed(u, site.target) {
      forall p | site.target <= p && Aim(t, p).Some? && Opening(t, site, Aim(t, p).value) ensures site.target <= Aim(t, p).value {
        AimLanding(u, p);
        FreshIsMissed(t, u, site.target, site.rollback, site.stamp, p);
        FreshIsMissed(t, u, site.target, Parent(site.target), site.stage, p);
      }
    }
    if Fenced(t, site) {
      forall p | site.target <= p && Landing(u, p).Some? ensures site.target <= Landing(u, p).value { AimLanding(u, p); }
    }
  }

  /** A fenced target leads nothing into the staging directory, so promotion is sure to end. */
  lemma FencedAvoids(t: Tree, site: Site, a: Tree)
    requires Usable(t, site) && Fenced(t, site)
    ensures Avoids(t, site, a)
  {
    SiblingsApart(site);
    forall g | g in Shipped(t, site.target, a) ensures !(site.Staging() <= g.at) {
      var r :| r in a && Aim(t, site.target + r) == Some(g.at);
      assert site.target <= site.target + r;
      if site.Staging() <= g.at { OnePath(site.Staging(), site.target, g.at); }
    }
  }

  // ----- An archive of one file -----

  /** The tree of an archive that holds one file: the directories above it, and the file. */
  ghost predicate Chain(a: Tree, r: Path, c: string) {
    (forall x :: x in a <==> x <= r) && (forall x :: x in a ==> a[x] == if x == r then File(c) else Dir)
  }

  lemma PrefixStep(x: Path, p: Path)
    requires p != []
    ensures x <= p <==> x <= Parent(p) || x == p
  {
  }

  lemma {:induction false} MadeFromNothing(p: Path)
    ensures MadeAll(EMPTY, p).Some?
    ensures var u := MadeAll(EMPTY, p).value; (forall x :: x in u <==> x <= p) && (forall x :: x in u ==> u[x] == Dir)
    decreases |p|
  {
    if p != [] {
      MadeFromNothing(Parent(p));
      var u := MadeAll(EMPTY, p).value;
      forall x ensures x in u <==> x <= p { PrefixStep(x, p); }
    }
  }

  function OneFile(r: Path, c: string): Entry {
    Entry(Join(r, "/"), RegularFile, c)
  }

  lemma PlainNameIsSafe(r: Path)
    requires r != [] && AllPlain(r)
    ensures SafeName(Join(r, "/")) && Parts(Join(r, "/")) == r
  {
    CleanPlain(r);
  }

  lemma OneEntry(t: Tree, g: Path, e: Entry)
    ensures Unpacked(t, g, [e]) == Placed(t, Place(g, e), e)
  {
    assert [e][1..] == [];
  }

  lemma OneFileTree(r: Path, c: string)
    requires r != [] && AllPlain(r)
    ensures AllSafe([OneFile(r, c)]) && ArchiveTree([OneFile(r, c)]).ok && Chain(ArchiveTree([OneFile(r, c)]).tree, r, c)
  {
    var e := OneFile(r, c);
    PlainNameIsSafe(r);
    OneSafe(e);
    PlacedAtTop(e, r);
    FilePlaced(r, c, e);
  }

  lemma OneSafe(e: Entry)
    requires SafeName(e.name)
    ensures AllSafe([e])
  {
  }

  lemma PlacedAtTop(e: Entry, r: Path)
    requires Parts(e.name) == r
    ensures ArchiveTree([e]) == Placed(EMPTY, r, e)
  {
    assert [] + r == r;
    OneEntry(EMPTY, [], e);
  }

  lemma FilePlaced(r: Path, c: string, e: Entry)
    requires r != [] && e.kind == RegularFile && e.content == c
    ensures Placed(EMPTY, r, e).ok && Chain(Placed(EMPTY, r, e).tree, r, c)
  {
    MadeFromNothing(Parent(r));
    var u := MadeAll(EMPTY, Parent(r)).value;
    assert r !in u && Parent(r) in u;
    var a := u[r := File(c)];
    forall x ensures x in a <==> x <= r { PrefixStep(x, r); }
  }

  // ----- The way out -----

  /** The path `d + r` leads to a place `y` outside, where the content `c` makes a difference. */
  ghost predicate WayOut(u: Tree, site: Site, r: Path, y: Path, c: string)
    requires site.target != []
  {
    && r != [] && AllPlain(r) && Landing(u, site.target + r) == Some(y)
    && (y in u ==> u[y].File? && u[y].content != c) && Elsewhere(y, site)
  }

  /** All that lies above a place a path can write to is a directory. */
  lemma {:induction false} DirsAbove(t: Tree, p: Path, q: Path)
    requires WellFormed(t) && q <= p && Real(t, p).Some? && t[Real(t, p).value] == Dir
    ensures Real(t, q).Some? && t[Real(t, q).value] == Dir
    decreases |p|
  {
    if q != p {
      var a, c := Parent(p), p[|p| - 1];
      LastOf(p);
      assert q <= a;
      var h := WalkOn(t, [], a, c, MAX_LINKS);
      DirsAbove(t, a, q);
    }
  }

  /** Something new outside is neither the snapshot nor the staging directory. */
  lemma OldIsElsewhere(t: Tree, site: Site, y: Path)
    requires Usual(t, site) && y in WithRollback(t, site)
    ensures !(site.Snapshot() <= y) && !(site.Staging() <= y)
  {
    RollbackIs(t, site);
    var u := WithRollback(t, site);
    BelowSnapshot(site.Staging(), site);
    NothingUnder(t, site.Snapshot());
    NothingUnder(t, site.Staging());
    assert !(site.Staging() <= site.rollback);
    if y !in t { assert |y| <= |site.rollback|; }
  }

  lemma TargetThen(d: Path, p: Path)
    requires d <= p
    ensures d + p[|d|..] == p
  {
  }

  lemma NamesAreOk(u: Tree, d: Path, p: Path)
    requires WellFormed(u) && NamesOk(u) && d != [] && d <= p && Real(u, p).Some?
    ensures AllPlain(p[|d|..])
  {
    NamesBelow(u, p, |d|);
    forall i | 0 <= i < |p[|d|..]| ensures Plain(p[|d|..][i]) { assert NameOk(p[|d|..][i]); }
  }

  lemma OneMorePlain(r: Path, f: string)
    requires AllPlain(r) && Plain(f)
    ensures AllPlain(r + [f])
  {
  }

  /** Into a directory outside the target a file with a new name can be written. */
  lemma OutThroughDirectory(t: Tree, site: Site, p: Path, q: Path) returns (r: Path, y: Path)
    requires Usual(t, site) && NamesOk(WithRollback(t, site)) && site.target <= p
    requires Real(WithRollback(t, site), p) == Some(q) && DirAt(WithRollback(t, site), q) && !(site.target <= q)
    ensures WayOut(WithRollback(t, site), site, r, y, "")
  {
    var u, d := WithRollback(t, site), site.target;
    RollbackIs(t, site);
    var f := FreshName(u.Keys + {d, site.Snapshot(), site.Staging()}, q);
    XsOk(f);
    y, r := q + [f], p[|d|..] + [f];
    NamesAreOk(u, d, p);
    OneMorePlain(p[|d|..], f);
    LandingBelow(u, p, q, f);
    TargetThen(d, p);
    AssocOf(d, p[|d|..], [f]);
    OldIsElsewhere(t, site, q);
    NotBelow(d, q, f);
    NotBelow(site.Snapshot(), q, f);
    NotBelow(site.Staging(), q, f);
  }

  /** A file outside that is there. */
  lemma OutToFile(t: Tree, site: Site, p: Path, y: Path) returns (r: Path, c: string)
    requires Usual(t, site) && NamesOk(WithRollback(t, site)) && site.target <= p
    requires Landing(WithRollback(t, site), p) == Some(y) && !(site.target <= y)
    requires y in WithRollback(t, site) && WithRollback(t, site)[y].File?
    ensures WayOut(WithRollback(t, site), site, r, y, c)
  {
    var u, d := WithRollback(t, site), site.target;
    RollbackIs(t, site);
    UsualParent(t, site);
    LandingKinds(u, p);
    r, c := p[|d|..], if u[y].content == "" then "x" else "";
    assert p != d;
    TargetThen(d, p);
    NamesAreOk(u, d, p);
    OldIsElsewhere(t, site, y);
  }

  /** A link to a missing place outside. */
  lemma OutThroughLink(t: Tree, site: Site, a: Path, c: string, q: Path, y: Path) returns (r: Path)
    requires Usual(t, site) && NamesOk(WithRollback(t, site)) && site.target <= a
    requires Real(WithRollback(t, site), a) == Some(q) && q + [c] in WithRollback(t, site) && WithRollback(t, site)[q + [c]].Link?
    requires Landing(WithRollback(t, site), a + [c]) == Some(y) && !(site.target <= y) && y !in WithRollback(t, site)
    ensures WayOut(WithRollback(t, site), site, r, y, "")
  {
    var u, d := WithRollback(t, site), site.target;
    RollbackIs(t, site);
    r := a[|d|..] + [c];
    TargetThen(d, a);
    AssocOf(d, a[|d|..], [c]);
    NamesAreOk(u, d, a);
    NotTop(u, [], a, MAX_LINKS);
    NameThere(u, q, c);
    OneMorePlain(a[|d|..], c);
    NotFresh(t, site, a, c, q, y);
  }

  /** No path but the empty one leads to the root: no link does. */
  lemma {:induction false} NotTop(u: Tree, at: Path, rest: Path, hops: nat)
    requires NamesOk(u) && (at != [] || rest != []) && Walk(u, at, rest, hops).Way? && Walk(u, at, rest, hops).left == []
    ensures Walk(u, at, rest, hops).at != []
    decreases hops, |rest|
  {
    if rest != [] && at in u && u[at] == Dir {
      var next := at + [rest[0]];
      WalkFirst(u, at, rest, hops);
      if next in u && !u[next].Link? {
        NotTop(u, next, rest[1..], hops);
      } else if next in u && hops > 0 {
        NotTop(u, [], u[next].to + rest[1..], hops - 1);
      }
    }
  }

  lemma NameThere(u: Tree, q: Path, c: string)
    requires NamesOk(u) && q != [] && q + [c] in u
    ensures Plain(c)
  {
    assert (q + [c])[|q|] == c;
  }

  /** A link cannot name what is fresh. */
  lemma NotFresh(t: Tree, site: Site, a: Path, c: string, q: Path, y: Path)
    requires Usual(t, site)
    requires Real(WithRollback(t, site), a) == Some(q) && q + [c] in WithRollback(t, site) && WithRollback(t, site)[q + [c]].Link?
    requires Landing(WithRollback(t, site), a + [c]) == Some(y)
    ensures !(site.Snapshot() <= y) && !(site.Staging() <= y)
  {
    var u, d := WithRollback(t, site), site.target;
    RollbackIs(t, site);
    AimReal(u, a);
    AimLanding(u, a + [c]);
    var h := AimNext(u, a, c);
    forall x | x in u && u[x].Link? ensures x in t && t[x] == u[x] {}
    OldIsElsewhere(t, site, site.rollback);
    assert site.Snapshot() !in u && site.Staging() !in u by {
      if site.Snapshot() in u { OldIsElsewhere(t, site, site.Snapshot()); }
      if site.Staging() in u { OldIsElsewhere(t, site, site.Staging()); }
    }
    NotBelowFresh(u, u[q + [c]].to, h, site.rollback, site.stamp);
    NotBelowFresh(u, u[q + [c]].to, h, Parent(d), site.stage);
  }

  /** The directory in which a path with a missing end leads to it. */
  lemma AboveMissing(u: Tree, d: Path, p: Path, y: Path) returns (a: Path, n: string, q: Path)
    requires WellFormed(u) && Landing(u, p) == Some(y) && y !in u && d <= p && Real(u, d).Some?
    ensures p == a + [n] && d <= a && Real(u, a) == Some(q) && DirAt(u, q)
    ensures (q + [n] in u && u[q + [n]].Link?) || y == q + [n]
  {
    NotItself(u, d, p, y);
    a, n := Parent(p), p[|p| - 1];
    LastOf(p);
    assert d <= a;
    LandingAbove(u, p);
    q := Real(u, a).value;
    AimOfMissing(u, a, n, q, y);
  }

  lemma NotItself(u: Tree, d: Path, p: Path, y: Path)
    requires WellFormed(u) && Landing(u, p) == Some(y) && y !in u && Real(u, d).Some?
    ensures p != d
  {
    AimReal(u, d);
    AimLanding(u, p);
  }

  lemma AimOfMissing(u: Tree, a: Path, n: string, q: Path, y: Path)
    requires WellFormed(u) && Landing(u, a + [n]) == Some(y) && Real(u, a) == Some(q) && DirAt(u, q)
    ensures (q + [n] in u && u[q + [n]].Link?) || y == q + [n]
  {
    AimLanding(u, a + [n]);
    if !(q + [n] in u && u[q + [n]].Link?) { AimBelow(u, a, q, n); }
  }

  /** A missing place outside. */
  lemma OutToMissing(t: Tree, site: Site, p: Path, y: Path) returns (r: Path, z: Path)
    requires Usual(t, site) && NamesOk(WithRollback(t, site)) && site.target <= p
    requires Landing(WithRollback(t, site), p) == Some(y) && !(site.target <= y) && y !in WithRollback(t, site)
    ensures WayOut(WithRollback(t, site), site, r, z, "")
  {
    RollbackIs(t, site);
    UsualParent(t, site);
    var a, n, q := AboveMissing(WithRollback(t, site), site.target, p, y);
    if y == q + [n] {
      assert site.target <= q ==> site.target <= y;
      r, z := OutThroughDirectory(t, site, a, q);
    } else {
      r := OutThroughLink(t, site, a, n, q, y);
      z := y;
    }
  }

  /** A target that is not closed has a way out. */
  lemma FindWayOut(t: Tree, site: Site) returns (r: Path, y: Path, c: string)
    requires Usual(t, site) && NamesOk(WithRollback(t, site)) && !Closed(WithRollback(t, site), site.target)
    ensures WayOut(WithRollback(t, site), site, r, y, c)
  {
    var u, d := WithRollback(t, site), site.target;
    RollbackIs(t, site);
    var p :| d <= p && Landing(u, p).Some? && !(d <= Landing(u, p).value);
    LandingKinds(u, p);
    y := Landing(u, p).value;
    c := "";
    if y !in u {
      r, y := OutToMissing(t, site, p, y);
    } else if u[y].File? {
      r, c := OutToFile(t, site, p, y);
    } else {
      r, y := OutThroughDirectory(t, site, p, y);
    }
  }

  // ----- Every run -----

  /** A faultless restore of the archive may run, and however it ends, it has changed something outside. */
  ghost predicate Leaks(t: Tree, site: Site, es: seq<Entry>)
    requires site.target != []
  {
    && MayRun(t, es, site, NO_FAULTS)
    && forall u, r :: Ends(t, u, es, site, NO_FAULTS, r) ==> r.Restored? && !Framed(t, u, site)
  }

  /** Every node of the one-file archive leads to an old directory, or to the place outside. */
  lemma ChainAims(t: Tree, site: Site, a: Tree, r: Path, y: Path, c: string, x: Path)
    requires Usual(t, site) && WayOut(WithRollback(t, site), site, r, y, c) && x <= r
    ensures Aim(t, site.target + x).Some?
    ensures x == r ==> Aim(t, site.target + x) == Some(y)
    ensures x != r ==> DirAt(WithRollback(t, site), Aim(t, site.target + x).value)
    ensures !(site.Snapshot() <= Aim(t, site.target + x).value) && !(site.Staging() <= Aim(t, site.target + x).value)
  {
    var u, d := WithRollback(t, site), site.target;
    RollbackIs(t, site);
    AimKept(t, u, d + x);
    if x == r {
      AimLanding(u, d + r);
    } else {
      LandingAbove(u, d + r);
      assert d + x <= Parent(d + r);
      DirsAbove(u, Parent(d + r), d + x);
      AimReal(u, d + x);
      OldIsElsewhere(t, site, Real(u, d + x).value);
    }
  }

  lemma ChainIsAwaited(t: Tree, site: Site, a: Tree, r: Path, y: Path, c: string)
    requires Usual(t, site) && WayOut(WithRollback(t, site), site, r, y, c) && Chain(a, r, c)
    ensures Avoids(t, site, a) && AwaitedSoon(t, site, a) && Good(y, File(c)) in Shipped(t, site.target, a)
    ensures forall g :: g in Shipped(t, site.target, a) && g.node.File? ==> g == Good(y, File(c))
  {
    var u, d := WithRollback(t, site), site.target;
    RollbackIs(t, site);
    forall x | x in a
      ensures Aim(t, d + x).Some? && Welcomed(u, Aim(t, d + x), a[x])
      ensures !(site.Snapshot() <= Aim(t, d + x).value) && !(site.Staging() <= Aim(t, d + x).value)
      ensures a[x].File? ==> Aim(t, d + x).value == y && a[x] == File(c)
    {
      ChainAims(t, site, a, r, y, c, x);
      if x == r { Placeable(u, d + r, y); }
    }
    ChainAims(t, site, a, r, y, c, r);
    assert r in a;
  }

  lemma Placeable(u: Tree, p: Path, y: Path)
    requires WellFormed(u) && Landing(u, p) == Some(y) && (y in u ==> u[y].File?)
    ensures y != [] && DirAt(u, Parent(y))
  {
    AimLanding(u, p);
  }

  /** In the end the file of the archive is outside. */
  lemma WayOutIsWritten(t: Tree, site: Site, r: Path, y: Path, c: string, u: Tree, o: Outcome)
    requires Usual(t, site) && WayOut(WithRollback(t, site), site, r, y, c) && Ends(t, u, [OneFile(r, c)], site, NO_FAULTS, o)
    ensures o.Restored? && y in u && u[y] == File(c)
  {
    var a := ArchiveTree([OneFile(r, c)]).tree;
    OneFileTree(r, c);
    ChainIsAwaited(t, site, a, r, y, c);
    UsualParent(t, site);
    assert Sound([OneFile(r, c)], NO_FAULTS);
    assert Arrived(t, u, site, a);
    assert Good(y, u[y]) in Shipped(t, site.target, a);
  }

  lemma NotDeep(site: Site)
    requires site.target != [] && Outside(site)
    ensures !Deep(site.target, site.Snapshot())
  {
    assert Parent(site.Snapshot()) == site.rollback;
  }

  lemma WayOutLeaks(t: Tree, site: Site, r: Path, y: Path, c: string)
    requires Usual(t, site) && WayOut(WithRollback(t, site), site, r, y, c)
    ensures Leaks(t, site, [OneFile(r, c)])
  {
    var es := [OneFile(r, c)];
    OneFileTree(r, c);
    ChainIsAwaited(t, site, ArchiveTree(es).tree, r, y, c);
    RollbackIs(t, site);
    NotDeep(site);
    forall u, o | Ends(t, u, es, site, NO_FAULTS, o) ensures o.Restored? && !Framed(t, u, site) {
      WayOutIsWritten(t, site, r, y, c, u, o);
      if y in t { assert WithRollback(t, site)[y] == t[y]; }
    }
  }

  /**
   Over a target that is a directory or leads to one: when no path below the target can be opened
   for writing outside it, the rollback directory being there, every archive may be restored, and
   no run, whatever the faults, changes anything outside but the new snapshot and the directories
   above it. Otherwise some archive of one plain file is restored by every run without faults, and
   each of these has changed something outside.
   */
  lemma RestoreContainedIff(t: Tree, site: Site)
    requires Usual(t, site) && NamesOk(WithRollback(t, site))
    ensures Closed(WithRollback(t, site), site.target) ==>
              && (forall es, faults :: MayRun(t, es, site, faults))
              && (forall u, es, faults, r :: Ends(t, u, es, site, faults, r) ==> Framed(t, u, site))
    ensures !Closed(WithRollback(t, site), site.target) ==> exists es :: |es| == 1 && Leaks(t, site, es)
  {
    FencedIff(t, site);
    if Fenced(t, site) {
      forall es, faults ensures MayRun(t, es, site, faults) {
        NotDeep(site);
        FencedAvoids(t, site, ArchiveTree(es).tree);
      }
    }
    if !Closed(WithRollback(t, site), site.target) {
      var r, y, c := FindWayOut(t, site);
      WayOutLeaks(t, site, r, y, c);
      assert |[OneFile(r, c)]| == 1;
    }
  }

  /** A link in the target, and a plain name behind it: every run without faults writes the file where the link leads. */
  lemma RestoreFollowsLinks(t: Tree, site: Site, link: string, to: Path, name: string, content: string, u: Tree, r: Outcome)
    requires Usual(t, site) && NameOk(link) && NameOk(name)
    requires site.target + [link] in t && t[site.target + [link]] == Link(to)
    requires DirAt(t, to) && to + [name] !in WithRollback(t, site) && Elsewhere(to + [name], site)
    requires Ends(t, u, [OneFile([link, name], content)], site, NO_FAULTS, r)
    ensures r.Restored? && to + [name] in u && u[to + [name]] == File(content)
  {
    var v, l := WithRollback(t, site), site.target + [link];
    RollbackIs(t, site);
    LinkLeads(v, l, to);
    LandingBelow(v, l, to, name);
    assert site.target + [link, name] == l + [name];
    WayOutIsWritten(t, site, [link, name], to + [name], content, u, r);
  }
}
