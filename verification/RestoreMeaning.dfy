/**
 The tree an archive stands for, said of its entries.
 */
module RestoreMeaning {
  import opened Text
  import opened Paths
  import opened FileTree
  import opened Links
  import opened Copying
  import opened Archive
  import opened Restore

  /** The entry is a regular file of that path. */
  predicate IsFileOf(e: Entry, r: Path) {
    e.kind == RegularFile && Parts(e.name) == r
  }

  /** The entry needs a directory at that path: it is one there or below, or a file below. */
  predicate NeedsDir(e: Entry, r: Path) {
    (e.kind == Directory && r <= Parts(e.name)) || (e.kind == RegularFile && r < Parts(e.name))
  }

  ghost predicate AsksFile(es: seq<Entry>, r: Path) {
    exists e :: e in es && IsFileOf(e, r)
  }

  ghost predicate AsksDir(es: seq<Entry>, r: Path) {
    r == [] || exists e :: e in es && NeedsDir(e, r)
  }

  /** No path is asked for both as a file and as a directory. */
  ghost predicate Consistent(es: seq<Entry>) {
    forall r :: !(AsksFile(es, r) && AsksDir(es, r))
  }

  /** Entry `i` is the last regular file of that path. */
  predicate LastFile(es: seq<Entry>, i: nat, r: Path) {
    i < |es| && IsFileOf(es[i], r) && forall j :: i < j < |es| ==> !IsFileOf(es[j], r)
  }

  /** The directories and files asked for and nothing else, each file with the content of its last entry. */
  ghost predicate StandsFor(a: Tree, es: seq<Entry>) {
    && (forall r :: r in a <==> AsksFile(es, r) || AsksDir(es, r))
    && (forall r :: r in a && AsksDir(es, r) ==> a[r] == Dir)
    && (forall i: nat, r :: LastFile(es, i, r) ==> r in a && a[r] == File(es[i].content))
  }

  lemma AsksMore(es: seq<Entry>, e: Entry, r: Path)
    ensures AsksFile(es + [e], r) <==> AsksFile(es, r) || IsFileOf(e, r)
    ensures AsksDir(es + [e], r) <==> AsksDir(es, r) || NeedsDir(e, r)
  {
    assert forall x :: x in es + [e] <==> x in es || x == e;
  }

  lemma LastFileMore(es: seq<Entry>, e: Entry, i: nat, r: Path)
    requires LastFile(es + [e], i, r)
    ensures (i == |es| && IsFileOf(e, r)) || (i < |es| && LastFile(es, i, r) && !IsFileOf(e, r))
  {
    var all := es + [e];
    assert all[|es|] == e;
    if i < |es| {
      assert all[i] == es[i] && !IsFileOf(all[|es|], r);
      forall j | i < j < |es| ensures !IsFileOf(es[j], r) { assert all[j] == es[j]; }
    }
  }

  lemma {:induction false} UnpackedSnoc(t: Tree, g: Path, es: seq<Entry>, e: Entry)
    ensures Unpacked(t, g, es + [e]) == var s := Unpacked(t, g, es); if s.ok then Placed(s.tree, Place(g, e), e) else s
    decreases |es|
  {
    if es == [] {
      assert es + [e] == [e] && [e][1..] == [];
    } else {
      assert (es + [e])[0] == es[0] && (es + [e])[1..] == es[1..] + [e];
      var s := Placed(t, Place(g, es[0]), es[0]);
      if s.ok { UnpackedSnoc(s.tree, g, es[1..], e); }
    }
  }

  lemma BelowParent(p: Path, q: Path)
    requires p != []
    ensures q < p <==> q <= Parent(p)
    ensures q <= p <==> q == p || q < p
  {
    if q <= p && |q| == |p| { assert q == p; }
  }

  /** Directories can be made exactly when all that is there on the way is a directory. */
  lemma {:induction false} MadeAllIff(t: Tree, p: Path)
    requires WellFormed(t)
    ensures MadeAll(t, p).Some? <==> forall q :: q <= p && q in t ==> t[q] == Dir
    decreases |p|
  {
    if p in t {
      forall q | q <= p && q in t && t[p] == Dir ensures t[q] == Dir { AncestorsIn(t, p, q); }
    } else {
      assert p != [];
      MadeAllIff(t, Parent(p));
      forall q ensures q in t && q <= p <==> q in t && q <= Parent(p) { BelowParent(p, q); }
    }
  }

  /** The directories on the way, made over a tree. */
  lemma MadeAllHolds(t: Tree, p: Path)
    requires WellFormed(t) && MadeAll(t, p).Some?
    ensures var u := MadeAll(t, p).value;
            && WellFormed(u) && (forall q :: q in u <==> q in t || q <= p)
            && (forall q :: q in t ==> u[q] == t[q]) && (forall q :: q <= p ==> q in u && u[q] == Dir)
  {
    MadeAllIs(t, p);
    var u := MadeAll(t, p).value;
    forall q | q <= p ensures q in u && u[q] == Dir { AncestorsIn(u, p, q); }
  }

  lemma {:induction false} LastExists(es: seq<Entry>, r: Path) returns (i: nat)
    requires AsksFile(es, r)
    ensures LastFile(es, i, r)
    decreases |es|
  {
    var n := |es| - 1;
    if IsFileOf(es[n], r) {
      i := n;
    } else {
      assert es == es[..n] + [es[n]];
      AsksMore(es[..n], es[n], r);
      i := LastExists(es[..n], r);
      assert forall j :: 0 <= j < n ==> es[..n][j] == es[j];
    }
  }

  /** What stands for consistent entries tells files from directories. */
  lemma KindsOf(a: Tree, es: seq<Entry>, r: Path)
    requires StandsFor(a, es) && Consistent(es)
    ensures r in a && a[r] == Dir <==> AsksDir(es, r)
    ensures r in a && a[r].File? <==> AsksFile(es, r)
  {
    if AsksFile(es, r) { var i := LastExists(es, r); }
  }

  lemma OneMoreStands(a: Tree, b: Tree, es: seq<Entry>, e: Entry)
    requires StandsFor(a, es) && Consistent(es) && Consistent(es + [e])
    requires forall q :: q in b <==> q in a || NeedsDir(e, q) || IsFileOf(e, q)
    requires forall q :: q in a && !IsFileOf(e, q) ==> b[q] == a[q]
    requires forall q :: NeedsDir(e, q) ==> q in b && b[q] == Dir
    requires forall q :: IsFileOf(e, q) ==> q in b && b[q] == File(e.content)
    ensures StandsFor(b, es + [e])
  {
    var all := es + [e];
    forall r ensures r in b <==> AsksFile(all, r) || AsksDir(all, r) { AsksMore(es, e, r); }
    forall r | r in b && AsksDir(all, r) ensures b[r] == Dir {
      AsksMore(es, e, r);
      KindsOf(a, es, r);
      assert !AsksFile(all, r);
    }
    forall i: nat, r | LastFile(all, i, r) ensures r in b && b[r] == File(all[i].content) {
      LastFileMore(es, e, i, r);
    }
  }

  lemma DirectoryStands(a: Tree, es: seq<Entry>, e: Entry)
    requires StandsFor(a, es) && WellFormed(a) && Consistent(es) && e.kind == Directory
    ensures var s := Placed(a, Parts(e.name), e);
            (s.ok <==> Consistent(es + [e])) && WellFormed(s.tree) && (s.ok ==> StandsFor(s.tree, es + [e]))
  {
    var p := Parts(e.name);
    MadeAllIff(a, p);
    forall r ensures r <= p ==> (r in a && a[r] != Dir <==> AsksFile(es, r)) { KindsOf(a, es, r); }
    forall r ensures AsksFile(es + [e], r) && AsksDir(es + [e], r) <==> AsksFile(es, r) && r <= p {
      AsksMore(es, e, r);
      assert !(AsksFile(es, r) && AsksDir(es, r));
    }
    if MadeAll(a, p).Some? {
      MadeAllHolds(a, p);
      OneMoreStands(a, MadeAll(a, p).value, es, e);
    }
  }

  /** A regular file fits in when no directory is asked for in its place and no file above it. */
  lemma FileFitsIff(es: seq<Entry>, e: Entry, p: Path)
    requires Consistent(es) && e.kind == RegularFile && p == Parts(e.name) && p != []
    ensures Consistent(es + [e]) <==> !AsksDir(es, p) && forall r :: AsksFile(es, r) ==> !(r <= Parent(p))
  {
    forall r ensures AsksFile(es + [e], r) && AsksDir(es + [e], r) <==> (AsksFile(es, r) && r <= Parent(p)) || (r == p && AsksDir(es, r)) {
      AsksMore(es, e, r);
      BelowParent(p, r);
      assert !(AsksFile(es, r) && AsksDir(es, r));
    }
  }

  lemma FileAtTop(es: seq<Entry>, e: Entry)
    requires e.kind == RegularFile && Parts(e.name) == []
    ensures !Consistent(es + [e])
  {
    AsksMore(es, e, []);
    assert AsksFile(es + [e], []) && AsksDir(es + [e], []);
  }

  lemma FileStands(a: Tree, es: seq<Entry>, e: Entry)
    requires StandsFor(a, es) && WellFormed(a) && Consistent(es) && e.kind == RegularFile
    ensures var s := Placed(a, Parts(e.name), e);
            (s.ok <==> Consistent(es + [e])) && (s.ok ==> WellFormed(s.tree) && StandsFor(s.tree, es + [e]))
  {
    var p := Parts(e.name);
    if p == [] {
      FileAtTop(es, e);
    } else {
      var q := Parent(p);
      FileFitsIff(es, e, p);
      MadeAllIff(a, q);
      forall r ensures r <= q ==> (r in a && a[r] != Dir <==> AsksFile(es, r)) { KindsOf(a, es, r); }
      KindsOf(a, es, p);
      if MadeAll(a, q).Some? {
        MadeAllHolds(a, q);
        var u := MadeAll(a, q).value;
        assert p in u <==> p in a;
        if Overwritten(u, p, e.content).Some? {
          PointKeeps(u, p, File(e.content));
          forall r ensures NeedsDir(e, r) <==> r <= q { BelowParent(p, r); }
          OneMoreStands(a, u[p := File(e.content)], es, e);
        }
      }
    }
  }

  /** An inconsistent archive stays so, whatever follows. */
  lemma ConsistentFront(es: seq<Entry>, e: Entry)
    requires Consistent(es + [e])
    ensures Consistent(es)
  {
    forall r ensures !(AsksFile(es, r) && AsksDir(es, r)) {
      AsksMore(es, e, r);
      assert !(AsksFile(es + [e], r) && AsksDir(es + [e], r));
    }
  }

  lemma EmptyStands()
    ensures Consistent([]) && StandsFor(EMPTY, [])
  {
    forall r ensures AsksDir([], r) <==> r == [] {}
  }

  lemma OtherStands(a: Tree, es: seq<Entry>, e: Entry)
    requires StandsFor(a, es) && Consistent(es) && e.kind != Directory && e.kind != RegularFile
    ensures Consistent(es + [e]) && StandsFor(a, es + [e])
  {
    forall r ensures !(AsksFile(es + [e], r) && AsksDir(es + [e], r)) {
      AsksMore(es, e, r);
      assert !(AsksFile(es, r) && AsksDir(es, r));
    }
    OneMoreStands(a, a, es, e);
  }

  /**
   An archive can be staged exactly when it asks for no path both as a file and as a directory.
   Then staging gives the directories and files it asks for and nothing else, and of several
   files of one path the last one counts.
   */
  lemma {:induction false} ArchiveTreeIff(es: seq<Entry>)
    ensures ArchiveTree(es).ok <==> Consistent(es)
    ensures ArchiveTree(es).ok ==> WellFormed(ArchiveTree(es).tree) && StandsFor(ArchiveTree(es).tree, es)
    decreases |es|
  {
    if es == [] {
      EmptyStands();
    } else {
      var n := |es| - 1;
      var front, e := es[..n], es[n];
      assert es == front + [e];
      ArchiveTreeIff(front);
      UnpackedSnoc(EMPTY, [], front, e);
      var a := ArchiveTree(front).tree;
      assert [] + Parts(e.name) == Parts(e.name);
      if !ArchiveTree(front).ok {
        if Consistent(es) { ConsistentFront(front, e); }
      } else if e.kind == Directory {
        DirectoryStands(a, front, e);
      } else if e.kind == RegularFile {
        FileStands(a, front, e);
      } else {
        OtherStands(a, front, e);
      }
    }
  }

  lemma {:induction false} CountSnoc(es: seq<Entry>, e: Entry)
    ensures CountFiles(es + [e]) == CountFiles(es) + if e.kind == RegularFile then 1 else 0
  {
    if es == [] {
      assert es + [e] == [e] && [e][1..] == [];
    } else {
      assert (es + [e])[0] == es[0] && (es + [e])[1..] == es[1..] + [e];
      CountSnoc(es[1..], e);
    }
  }

  /** The number of files reported is the number of entries that are regular files. */
  lemma {:induction false} CountIs(es: seq<Entry>)
    ensures CountFiles(es) == |set i | 0 <= i < |es| && es[i].kind == RegularFile|
    decreases |es|
  {
    var all := set i | 0 <= i < |es| && es[i].kind == RegularFile;
    if es == [] {
      assert all == {};
    } else {
      var n := |es| - 1;
      assert es == es[..n] + [es[n]];
      CountSnoc(es[..n], es[n]);
      CountIs(es[..n]);
      var front := set i | 0 <= i < n && es[..n][i].kind == RegularFile;
      assert forall i :: 0 <= i < n ==> es[..n][i] == es[i];
      assert all == if es[n].kind == RegularFile then front + {n} else front;
    }
  }
}
