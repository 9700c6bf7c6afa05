/**
 A file system as a map from paths to nodes, changed at paths no link leads astray from, and
 what copying a directory amounts to there.
 */
module FileTree {
  import opened Text

  type Path = seq<string>

  /** A link leads to a path from the root; a relative destination is taken as the path it stands for. */
  datatype Node = Dir | File(content: string) | Link(to: Path) | Special

  type Tree = map<Path, Node>

  function Parent(p: Path): Path
    requires p != []
  {
    p[..|p| - 1]
  }

  lemma LastOf(p: Path)
    requires p != []
    ensures p == Parent(p) + [p[|p| - 1]]
  {
  }

  /** The root is a directory, and every other node lies in one. */
  ghost predicate WellFormed(t: Tree) {
    && [] in t && t[[]] == Dir
    && forall p :: p in t && p != [] ==> Parent(p) in t && t[Parent(p)] == Dir
  }

  /** Neither path lies under the other. */
  predicate Apart(p: Path, q: Path) {
    !(p <= q) && !(q <= p)
  }

  // ----- Operations -----

  /** The directory and whatever is missing above it; fails when something else is in the way. */
  function MadeAll(t: Tree, p: Path): Option<Tree>
    decreases |p|
  {
    if p in t then (if t[p] == Dir then Some(t) else None)
    else if p == [] then None
    else match MadeAll(t, Parent(p))
      case None => None
      case Some(u) => Some(u[p := Dir])
  }

  /** A file put in place by a rename: into an existing directory, over anything but a directory or a link. */
  function Put(t: Tree, p: Path, content: string): Option<Tree> {
    if p == [] || Parent(p) !in t || t[Parent(p)] != Dir then None
    else if p in t && (t[p].Dir? || t[p].Link?) then None
    else Some(t[p := File(content)])
  }

  /** A file created, or emptied and written again. */
  function Overwritten(t: Tree, p: Path, content: string): Option<Tree> {
    if p == [] || Parent(p) !in t || t[Parent(p)] != Dir then None
    else if p in t && !t[p].File? then None
    else Some(t[p := File(content)])
  }

  function Removed(t: Tree, p: Path): Tree {
    map q | q in t && !(p <= q) :: t[q]
  }

  // ----- Trees compared -----

  /** The same nodes everywhere but under `p`. */
  ghost predicate SameOutside(t: Tree, u: Tree, p: Path) {
    forall q :: !(p <= q) ==> (q in t <==> q in u) && (q in t ==> t[q] == u[q])
  }

  /** The same nodes at and under `p`. */
  ghost predicate SameAt(t: Tree, u: Tree, p: Path) {
    forall q :: p <= q ==> (q in t <==> q in u) && (q in t ==> t[q] == u[q])
  }

  // ----- Directories -----

  lemma {:induction false} MadeAllIs(t: Tree, p: Path)
    requires WellFormed(t) && MadeAll(t, p).Some?
    ensures var u := MadeAll(t, p).value;
            && WellFormed(u) && p in u && u[p] == Dir
            && (forall q :: q in t ==> q in u && u[q] == t[q])
            && (forall q :: q in u && q !in t ==> u[q] == Dir && q <= p)
    decreases |p|
  {
    if p !in t {
      MadeAllIs(t, Parent(p));
    }
  }

  /** Next to an existing directory at most one directory is made. */
  lemma MadeOne(t: Tree, p: Path)
    requires p != [] && Parent(p) in t && t[Parent(p)] == Dir
    ensures MadeAll(t, p) == if p in t then (if t[p] == Dir then Some(t) else None) else Some(t[p := Dir])
  {
  }

  lemma RemovedWellFormed(t: Tree, p: Path)
    requires WellFormed(t) && p != []
    ensures WellFormed(Removed(t, p))
  {
    forall q | q in Removed(t, p) && q != [] ensures Parent(q) in Removed(t, p) && Removed(t, p)[Parent(q)] == Dir {
      assert p <= Parent(q) ==> p <= q;
    }
  }

  // ----- Copying a directory -----

  /** The path at `d` that answers to the path `q` at `s`. */
  function Moved(s: Path, d: Path, q: Path): Path
    requires s <= q
  {
    d + q[|s|..]
  }

  lemma MovedBack(s: Path, d: Path, q: Path)
    requires s <= q
    ensures d <= Moved(s, d, q) && Moved(d, s, Moved(s, d, q)) == q
  {
  }

  predicate Copied(n: Node) {
    n.Dir? || n.File?
  }

  /** What there is to copy. */
  function Sources(t: Tree, s: Path): set<Path> {
    set q | q in t && s <= q && Copied(t[q])
  }

  /** The tree `t` once the given sources in `v` have been copied. */
  function Overlay(t: Tree, v: Tree, s: Path, d: Path, done: set<Path>): Tree
    requires done <= Sources(v, s)
  {
    t + map x | x in (set q | q in done :: Moved(s, d, q)) :: v[Origin(s, d, done, x)]
  }

  /** The source a copied path comes from. */
  function Origin(s: Path, d: Path, done: set<Path>, x: Path): (q: Path)
    requires forall q :: q in done ==> s <= q
    requires x in (set q | q in done :: Moved(s, d, q))
    ensures q in done && Moved(s, d, q) == x
  {
    assert exists q :: q in done && Moved(s, d, q) == x;
    assert forall q :: q in done && Moved(s, d, q) == x ==> q == s + x[|d|..] by {
      forall q | q in done && Moved(s, d, q) == x ensures q == s + x[|d|..] { MovedBack(s, d, q); }
    }
    s + x[|d|..]
  }

  lemma OverlayAt(t: Tree, v: Tree, s: Path, d: Path, done: set<Path>, q: Path)
    requires done <= Sources(v, s) && q in done
    ensures Moved(s, d, q) in Overlay(t, v, s, d, done) && Overlay(t, v, s, d, done)[Moved(s, d, q)] == v[q]
  {
    var x := Moved(s, d, q);
    MovedBack(s, d, q);
    MovedBack(s, d, Origin(s, d, done, x));
  }

  lemma OverlayElse(t: Tree, v: Tree, s: Path, d: Path, done: set<Path>, x: Path)
    requires done <= Sources(v, s)
    requires forall q :: q in done ==> Moved(s, d, q) != x
    ensures x in Overlay(t, v, s, d, done) <==> x in t
    ensures x in t ==> Overlay(t, v, s, d, done)[x] == t[x]
  {
  }

  lemma OverlayPoint(t: Tree, v: Tree, s: Path, d: Path, done: set<Path>, q: Path, x: Path)
    requires done <= Sources(v, s) && q in Sources(v, s)
    ensures var a, b := Overlay(t, v, s, d, done + {q}), Overlay(t, v, s, d, done)[Moved(s, d, q) := v[q]];
            (x in a <==> x in b) && (x in a ==> a[x] == b[x])
  {
    if x == Moved(s, d, q) {
      OverlayAt(t, v, s, d, done + {q}, q);
    } else if exists p :: p in done && Moved(s, d, p) == x {
      var p :| p in done && Moved(s, d, p) == x;
      OverlayAt(t, v, s, d, done, p);
      OverlayAt(t, v, s, d, done + {q}, p);
    } else {
      OverlayElse(t, v, s, d, done, x);
      OverlayElse(t, v, s, d, done + {q}, x);
    }
  }

  lemma OverlayStep(t: Tree, v: Tree, s: Path, d: Path, done: set<Path>, q: Path)
    requires done <= Sources(v, s) && q in Sources(v, s)
    ensures Overlay(t, v, s, d, done + {q}) == Overlay(t, v, s, d, done)[Moved(s, d, q) := v[q]]
  {
    var a, b := Overlay(t, v, s, d, done + {q}), Overlay(t, v, s, d, done)[Moved(s, d, q) := v[q]];
    forall x ensures (x in a <==> x in b) && (x in a ==> a[x] == b[x]) { OverlayPoint(t, v, s, d, done, q, x); }
  }

  /** The parent of a source other than the top is a directory and a source. */
  lemma ParentIsSource(t: Tree, s: Path, q: Path)
    requires WellFormed(t) && q in Sources(t, s) && q != s
    ensures q != [] && Parent(q) in Sources(t, s) && t[Parent(q)] == Dir
  {
    assert |q| > |s|;
    assert s <= Parent(q);
  }

  /** The copies already made give the next one its directory. */
  lemma ParentReady(t: Tree, v: Tree, s: Path, d: Path, done: set<Path>, q: Path)
    requires WellFormed(v) && d != [] && Parent(d) in t && t[Parent(d)] == Dir
    requires done <= Sources(v, s) && q in Sources(v, s) && (q == s || Parent(q) in done)
    ensures var u, x := Overlay(t, v, s, d, done), Moved(s, d, q);
            x != [] && Parent(x) in u && u[Parent(x)] == Dir
  {
    var x := Moved(s, d, q);
    if q == s {
      assert x == d + [] == d;
      forall p | p in done ensures Moved(s, d, p) != Parent(d) { assert |Moved(s, d, p)| >= |d|; }
      OverlayElse(t, v, s, d, done, Parent(d));
    } else {
      ParentIsSource(v, s, q);
      assert Parent(x) == Moved(s, d, Parent(q));
      OverlayAt(t, v, s, d, done, Parent(q));
    }
  }

  /** A node of the kind that may be copied over another. */
  predicate Compatible(was: Node, now: Node) {
    if now.Dir? then was.Dir? else was.File?
  }

  /** Nothing at the target is of another kind than the source copied over it. */
  ghost predicate NoConflict(t: Tree, s: Path, d: Path) {
    forall q :: q in Sources(t, s) && Moved(s, d, q) in t ==> Compatible(t[Moved(s, d, q)], t[q])
  }

  lemma BothBelow(s: Path, d: Path, q: Path)
    requires Apart(s, d) && s <= q
    ensures !(d <= q)
  {
    if d <= q { OnePath(s, d, q); }
  }

  lemma NotBelow(d: Path, y: Path, f: string)
    requires !(d <= y) && y + [f] != d
    ensures !(d <= y + [f])
  {
    assert d <= y + [f] ==> |d| <= |y| && d <= y;
  }

  /** Two prefixes of one path are comparable. */
  lemma OnePath(a: Path, b: Path, p: Path)
    requires a <= p && b <= p
    ensures a <= b || b <= a
  {
  }

  lemma OverlayOutside(t: Tree, v: Tree, s: Path, d: Path, done: set<Path>)
    requires done <= Sources(v, s)
    ensures SameOutside(t, Overlay(t, v, s, d, done), d)
  {
    forall x | !(d <= x)
      ensures (x in t <==> x in Overlay(t, v, s, d, done)) && (x in t ==> t[x] == Overlay(t, v, s, d, done)[x])
    {
      forall p | p in done ensures Moved(s, d, p) != x { MovedBack(s, d, p); }
      OverlayElse(t, v, s, d, done, x);
    }
  }

  /** What is in the way of a copy was there before. */
  lemma InTheWay(t: Tree, s: Path, d: Path, done: set<Path>, q: Path)
    requires done <= Sources(t, s) && q in Sources(t, s) && q !in done
    requires var u := Overlay(t, t, s, d, done); Moved(s, d, q) in u && !Compatible(u[Moved(s, d, q)], t[q])
    ensures !NoConflict(t, s, d)
  {
    MovedBack(s, d, q);
    forall p | p in done ensures Moved(s, d, p) != Moved(s, d, q) { MovedBack(s, d, p); }
    OverlayElse(t, t, s, d, done, Moved(s, d, q));
  }

  lemma EmptyHasNoConflict(t: Tree, s: Path, d: Path)
    requires forall q :: q in t ==> !(d <= q)
    ensures NoConflict(t, s, d)
  {
    forall q | q in Sources(t, s) ensures Moved(s, d, q) !in t { MovedBack(s, d, q); }
  }

  /** A node put into an existing directory, over nothing or over no directory unless it is one, keeps the tree well-formed. */
  lemma PointKeeps(t: Tree, x: Path, n: Node)
    requires WellFormed(t) && x != [] && Parent(x) in t && t[Parent(x)] == Dir && (x in t && t[x].Dir? ==> n.Dir?)
    ensures WellFormed(t[x := n])
  {
    var u := t[x := n];
    forall q | q in u && q != [] ensures Parent(q) in u && u[Parent(q)] == Dir {
      if q != x { assert q in t; }
    }
  }

  /** Directories and regular files only. */
  ghost predicate Regular(t: Tree, s: Path) {
    forall q :: q in t && s <= q ==> Copied(t[q])
  }

  /** What a finished copy amounts to: the old tree at the target overlaid by the source. */
  lemma CopyOverlays(t: Tree, s: Path, d: Path)
    requires Apart(s, d) && Regular(t, s)
    ensures var u := Overlay(t, t, s, d, Sources(t, s));
            && (forall r: Path :: d + r in u <==> d + r in t || s + r in t)
            && (forall r: Path :: s + r in t ==> u[d + r] == t[s + r])
            && (forall r: Path :: s + r !in t && d + r in t ==> u[d + r] == t[d + r])
  {
    var all := Sources(t, s);
    var u := Overlay(t, t, s, d, all);
    forall r: Path
      ensures (d + r in u <==> d + r in t || s + r in t) && (s + r in t ==> u[d + r] == t[s + r])
      ensures s + r !in t && d + r in t ==> u[d + r] == t[d + r]
    {
      var q := s + r;
      assert q[|s|..] == r && Moved(s, d, q) == d + r;
      if q in t {
        assert q in all;
        OverlayAt(t, t, s, d, all, q);
      } else {
        forall p | p in all ensures Moved(s, d, p) != d + r {
          MovedBack(s, d, p);
          assert (d + r)[|d|..] == r;
        }
        OverlayElse(t, t, s, d, all, d + r);
      }
    }
  }
}
