/**
 Symbolic links: where a path leads, the operations that follow links, and the directories
 no path leads out of.
 */
module Links {
  import opened Text
  import opened FileTree

  /** How many links one path may lead through. */
  const MAX_LINKS := 40

  /** The node a path leads to, and what is left of it where it leads no further; or too many links. */
  datatype Way = Way(at: Path, left: Path) | Loop

  function Walk(t: Tree, at: Path, rest: Path, hops: nat): Way
    decreases hops, |rest|
  {
    if rest == [] || at !in t || t[at] != Dir then Way(at, rest)
    else
      var next := at + [rest[0]];
      if next !in t then Way(at, rest)
      else if !t[next].Link? then Walk(t, next, rest[1..], hops)
      else if hops == 0 then Loop
      else Walk(t, [], t[next].to + rest[1..], hops - 1)
  }

  function Lead(t: Tree, p: Path): Way {
    Walk(t, [], p, MAX_LINKS)
  }

  /** The node a path stands for, links followed to the end. */
  function Real(t: Tree, p: Path): Option<Path> {
    match Lead(t, p)
    case Way(q, left) => if left == [] && q in t then Some(q) else None
    case Loop => None
  }

  /** The place named by a path itself: links are followed everywhere but at its end. */
  function Slot(t: Tree, p: Path): Option<Path>
    requires p != []
  {
    match Real(t, Parent(p))
    case None => None
    case Some(q) => if t[q] == Dir then Some(q + [p[|p| - 1]]) else None
  }

  /** The place a path opened for writing has, at the end of all links: a file or directory, or a missing node in an existing directory. */
  function Landing(t: Tree, p: Path): Option<Path> {
    match Lead(t, p)
    case Loop => None
    case Way(q, left) =>
      if q !in t then None
      else if left == [] then (if t[q].Special? then None else Some(q))
      else if |left| == 1 && t[q] == Dir then Some(q + left)
      else None
  }

  /** Where a path leads, followed as far as its nodes are there: what exists of it, and then the rest as written. */
  function Aim(t: Tree, p: Path): Option<Path> {
    match Lead(t, p)
    case Way(q, left) => Some(q + left)
    case Loop => None
  }

  // ----- Operations that follow links -----

  /** The directory and what is missing above it. A link that leads nowhere is in the way. */
  function MadeDirs(t: Tree, p: Path): Option<Tree>
    decreases |p|
  {
    match Real(t, p)
    case Some(q) => if t[q] == Dir then Some(t) else None
    case None =>
      if p == [] then None
      else match MadeDirs(t, Parent(p))
        case None => None
        case Some(u) => MadeAtSlot(u, p)
  }

  function MadeAtSlot(t: Tree, p: Path): Option<Tree>
    requires p != []
  {
    match Slot(t, p)
    case None => None
    case Some(x) => if x in t then None else Some(t[x := Dir])
  }

  /** A file renamed to its place; the place itself must be no link. */
  function Renamed(t: Tree, p: Path, content: string): Option<Tree> {
    if p == [] then None
    else match Slot(t, p)
      case None => None
      case Some(x) => if x in t && (t[x].Dir? || t[x].Link?) then None else Some(t[x := File(content)])
  }

  predicate LinkAt(t: Tree, p: Path) {
    p != [] && match Slot(t, p) case None => false case Some(x) => x in t && t[x].Link?
  }

  /** A file opened for writing, emptied if it was there. */
  function Truncated(t: Tree, p: Path, content: string): Option<Tree> {
    match Landing(t, p)
    case None => None
    case Some(x) => if x in t && !t[x].File? then None else Some(t[x := File(content)])
  }

  // ----- Paths without links -----

  /** No link on the way to a path, nor at its end. */
  ghost predicate Straight(t: Tree, p: Path) {
    forall q :: q <= p && q in t ==> !t[q].Link?
  }

  lemma StraightPrefix(t: Tree, p: Path, q: Path)
    requires Straight(t, p) && q <= p
    ensures Straight(t, q)
  {
  }

  /** All that lies above an existing node is a directory. */
  lemma {:induction false} AncestorsIn(t: Tree, p: Path, q: Path)
    requires WellFormed(t) && p in t && q <= p
    ensures q in t && (q != p ==> t[q] == Dir)
    decreases |p|
  {
    if q != p {
      assert q <= Parent(p);
      AncestorsIn(t, Parent(p), q);
    }
  }

  lemma ExistingIsStraight(t: Tree, p: Path)
    requires WellFormed(t) && p in t && !t[p].Link?
    ensures Straight(t, p)
  {
    forall q | q <= p && q in t ensures !t[q].Link? { AncestorsIn(t, p, q); }
  }

  /** Below an existing directory, a path with nothing there yet. */
  lemma BelowIsStraight(t: Tree, p: Path)
    requires WellFormed(t) && p != [] && Parent(p) in t && t[Parent(p)] == Dir && (p in t ==> !t[p].Link?)
    ensures Straight(t, p)
  {
    ExistingIsStraight(t, Parent(p));
    forall q | q <= p && q in t ensures !t[q].Link? {
      if q != p { assert q <= Parent(p); }
    }
  }

  lemma OneOn(at: Path, rest: Path)
    requires rest != []
    ensures (at + [rest[0]]) + rest[1..] == at + rest
    ensures at + [rest[0]] <= at + rest
  {
  }

  /** A straight path leads along itself. */
  lemma {:induction false} WalkStraight(t: Tree, at: Path, rest: Path, hops: nat)
    requires WellFormed(t) && at in t && Straight(t, at + rest)
    ensures var w := Walk(t, at, rest, hops);
            && w.Way? && w.at + w.left == at + rest && w.at in t
            && (w.left != [] ==> t[w.at] != Dir || w.at + [w.left[0]] !in t)
            && (at + rest in t ==> w.left == [])
    decreases |rest|
  {
    if rest == [] {
      assert at + rest == at;
    } else {
      OneOn(at, rest);
      var next := at + [rest[0]];
      if next in t && t[at] == Dir {
        WalkStraight(t, next, rest[1..], hops);
      } else if at + rest in t {
        AncestorsIn(t, at + rest, next);
        AncestorsIn(t, at + rest, at);
      }
    }
  }

  lemma StraightReal(t: Tree, p: Path)
    requires WellFormed(t) && Straight(t, p)
    ensures Real(t, p) == if p in t then Some(p) else None
  {
    assert [] + p == p;
    WalkStraight(t, [], p, MAX_LINKS);
    var w := Lead(t, p);
    if w.left == [] { assert w.at + [] == w.at; }
  }

  lemma StraightSlot(t: Tree, p: Path)
    requires WellFormed(t) && p != [] && Straight(t, Parent(p))
    ensures Slot(t, p) == if Parent(p) in t && t[Parent(p)] == Dir then Some(p) else None
  {
    StraightReal(t, Parent(p));
    assert Parent(p) + [p[|p| - 1]] == p;
  }

  lemma StraightLanding(t: Tree, p: Path)
    requires WellFormed(t) && p != [] && Straight(t, p)
    ensures Landing(t, p) ==
            if p in t then (if t[p].Special? then None else Some(p))
            else if Parent(p) in t && t[Parent(p)] == Dir then Some(p)
            else None
  {
    assert [] + p == p;
    WalkStraight(t, [], p, MAX_LINKS);
    var w := Lead(t, p);
    if w.left == [] {
      assert w.at + [] == w.at;
    } else {
      LastStep(w.at, w.left, p);
      if Parent(p) in t && t[Parent(p)] == Dir && w.at != Parent(p) {
        AncestorsIn(t, Parent(p), w.at);
        AncestorsIn(t, Parent(p), w.at + [w.left[0]]);
      }
    }
  }

  lemma LastStep(at: Path, left: Path, p: Path)
    requires left != [] && at + left == p
    ensures |left| == 1 <==> at == Parent(p)
    ensures at <= Parent(p) && (at != Parent(p) ==> at + [left[0]] <= Parent(p))
  {
    assert |at| + |left| == |p|;
    assert Parent(p) == at + left[..|left| - 1];
    if |left| > 1 { assert left[..|left| - 1] == [left[0]] + left[1..|left| - 1]; }
  }

  lemma {:induction false} MadeAllNew(t: Tree, p: Path)
    requires WellFormed(t) && MadeAll(t, p).Some? && Straight(t, p)
    ensures Straight(MadeAll(t, p).value, p)
  {
    MadeAllIs(t, p);
  }

  /** On a straight path, making directories is making them on the path itself. */
  lemma {:induction false} MadeStraight(t: Tree, p: Path)
    requires WellFormed(t) && Straight(t, p)
    ensures MadeDirs(t, p) == MadeAll(t, p)
    decreases |p|
  {
    StraightReal(t, p);
    if p !in t && p != [] {
      StraightPrefix(t, p, Parent(p));
      MadeStraight(t, Parent(p));
      if MadeAll(t, Parent(p)).Some? {
        var u := MadeAll(t, Parent(p)).value;
        MadeAllIs(t, Parent(p));
        MadeAllNew(t, Parent(p));
        StraightSlot(u, p);
        assert !(p <= Parent(p));
      }
    }
  }

  lemma RenamedStraight(t: Tree, p: Path, content: string)
    requires WellFormed(t) && p != [] && Straight(t, Parent(p))
    ensures Renamed(t, p, content) == Put(t, p, content) && (LinkAt(t, p) <==> p in t && t[p].Link?)
  {
    StraightSlot(t, p);
    if p in t { AncestorsIn(t, p, Parent(p)); }
  }

  lemma TruncatedStraight(t: Tree, p: Path, content: string)
    requires WellFormed(t) && p != [] && Straight(t, p)
    ensures Truncated(t, p, content) == Overwritten(t, p, content)
  {
    StraightLanding(t, p);
    if p in t { AncestorsIn(t, p, Parent(p)); }
  }

  // ----- One component more -----

  /** The first component of a walk. */
  lemma WalkFirst(t: Tree, at: Path, rest: Path, hops: nat)
    requires at in t && t[at] == Dir && rest != []
    ensures var next, w := at + [rest[0]], Walk(t, at, rest, hops);
            && (next !in t ==> w == Way(at, rest))
            && (next in t && !t[next].Link? ==> w == Walk(t, next, rest[1..], hops))
            && (next in t && t[next].Link? && hops == 0 ==> w == Loop)
            && (next in t && t[next].Link? && hops > 0 ==> w == Walk(t, [], t[next].to + rest[1..], hops - 1))
  {
  }

  /** A walk that goes one component further than another. */
  lemma {:induction false} WalkOn(t: Tree, at: Path, rest: Path, c: string, hops: nat) returns (h: nat)
    requires [] in t && at in t
    ensures var w, v := Walk(t, at, rest, hops), Walk(t, at, rest + [c], hops);
            && (w.Loop? ==> v.Loop?)
            && (w.Way? && w.left != [] ==> v == Way(w.at, w.left + [c]))
            && (w.Way? && w.left == [] ==> w.at in t && v == Walk(t, w.at, [c], h))
    decreases hops, |rest|
  {
    h := hops;
    if rest == [] {
      assert rest + [c] == [c];
    } else if t[at] == Dir {
      var next := at + [rest[0]];
      var more := rest + [c];
      assert more[0] == rest[0] && more[1..] == rest[1..] + [c];
      WalkFirst(t, at, rest, hops);
      WalkFirst(t, at, more, hops);
      if next in t && !t[next].Link? {
        h := WalkOn(t, next, rest[1..], c, hops);
      } else if next in t && hops > 0 {
        AssocOf(t[next].to, rest[1..], [c]);
        h := WalkOn(t, [], t[next].to + rest[1..], c, hops - 1);
      }
    }
  }

  /** Where a walk ends there is no link, and what is left of it is not there. */
  lemma {:induction false} WalkEnd(t: Tree, at: Path, rest: Path, hops: nat)
    requires WellFormed(t) && at in t && !t[at].Link?
    ensures var w := Walk(t, at, rest, hops);
            w.Way? ==> w.at in t && !t[w.at].Link? && (w.left != [] && t[w.at] == Dir ==> w.at + [w.left[0]] !in t)
    decreases hops, |rest|
  {
    if rest != [] && t[at] == Dir && at + [rest[0]] in t {
      var next := at + [rest[0]];
      WalkFirst(t, at, rest, hops);
      if !t[next].Link? {
        WalkEnd(t, next, rest[1..], hops);
      } else if hops > 0 {
        WalkEnd(t, [], t[next].to + rest[1..], hops - 1);
      }
    }
  }

  lemma LandingKinds(t: Tree, p: Path)
    requires WellFormed(t) && Landing(t, p).Some?
    ensures var y := Landing(t, p).value; y in t ==> Real(t, p) == Some(y) && (t[y].Dir? || t[y].File?)
  {
    WalkEnd(t, [], p, MAX_LINKS);
    var w := Lead(t, p);
    if w.left != [] { assert w.left == [w.left[0]]; }
  }

  /** A path that lands somewhere has a real directory above it. */
  lemma LandingAbove(t: Tree, p: Path)
    requires WellFormed(t) && p != [] && Landing(t, p).Some?
    ensures Real(t, Parent(p)).Some? && t[Real(t, Parent(p)).value] == Dir
  {
    LastOf(p);
    var h := WalkOn(t, [], Parent(p), p[|p| - 1], MAX_LINKS);
  }

  /** A missing name in a directory a path leads to. */
  lemma LandingBelow(t: Tree, p: Path, q: Path, c: string)
    requires WellFormed(t) && Real(t, p) == Some(q) && t[q] == Dir && q + [c] !in t
    ensures Landing(t, p + [c]) == Some(q + [c])
  {
    var h := WalkOn(t, [], p, c, MAX_LINKS);
    assert [c][0] == c;
  }

  // ----- Names not taken -----

  function Xs(n: nat): string {
    if n == 0 then "x" else "x" + Xs(n - 1)
  }

  lemma {:induction false} XsAre(n: nat)
    ensures |Xs(n)| == n + 1 && forall i :: 0 <= i < |Xs(n)| ==> Xs(n)[i] == 'x'
  {
    if n > 0 { XsAre(n - 1); }
  }

  lemma {:induction false} LongerThanAll(s: set<Path>, k: nat) returns (n: nat)
    ensures forall p :: p in s && k < |p| ==> |p[k]| <= n
    decreases s
  {
    n := 0;
    if s != {} {
      var p :| p in s;
      var m := LongerThanAll(s - {p}, k);
      n := if k < |p| && |p[k]| > m then |p[k]| else m;
      assert forall q :: q in s ==> q == p || q in s - {p};
    }
  }

  /** A name free below `q`. */
  lemma FreshName(s: set<Path>, q: Path) returns (f: string)
    ensures q + [f] !in s && f != "" && forall i :: 0 <= i < |f| ==> f[i] == 'x'
  {
    var n := LongerThanAll(s, |q|);
    XsAre(n);
    f := Xs(n);
    assert (q + [f])[|q|] == f;
  }

  // ----- Trees that only grow -----

  /** What a node may become: directories and links stay, a file may get new content. */
  predicate Kept(was: Node, now: Node) {
    (was.Dir? <==> now.Dir?) && (was.Link? || now.Link? ==> was == now) && (was.File? ==> now.File?)
  }

  /** Everything is kept; what is new is a directory or a file. */
  ghost predicate Grown(t: Tree, u: Tree) {
    && (forall q :: q in t ==> q in u && Kept(t[q], u[q]))
    && (forall q :: q in u && q !in t ==> u[q].Dir? || u[q].File?)
  }

  lemma GrownTwice(t: Tree, u: Tree, v: Tree)
    requires Grown(t, u) && Grown(u, v)
    ensures Grown(t, v)
  {
    forall q | q in v && q !in t ensures v[q].Dir? || v[q].File? {
      if q in u { assert u[q].Dir? || u[q].File?; }
    }
  }

  /** The one node an operation writes: a new directory, or a file that is new or stands for another node. */
  predicate Writes(t: Tree, x: Path, n: Node) {
    && x != [] && Parent(x) in t && t[Parent(x)] == Dir
    && (if n.Dir? then x !in t else n.File? && (x in t ==> t[x].File? || t[x].Special?))
  }

  lemma WritesGrow(t: Tree, x: Path, n: Node)
    requires WellFormed(t) && Writes(t, x, n)
    ensures WellFormed(t[x := n]) && Grown(t, t[x := n])
  {
    PointKeeps(t, x, n);
  }

  // ----- Directories no path leads out of -----

  /** Whatever directory a path below `d` leads to lies at or below `d`. */
  ghost predicate Sealed(t: Tree, d: Path) {
    forall p :: d <= p && Real(t, p).Some? && t[Real(t, p).value] == Dir ==> d <= Real(t, p).value
  }

  /** Wherever a file opened below `d` would be, it lies at or below `d`. */
  ghost predicate Closed(t: Tree, d: Path) {
    forall p :: d <= p && Landing(t, p).Some? ==> d <= Landing(t, p).value
  }

  /** No link at or below `d`. */
  ghost predicate LinkFree(t: Tree, d: Path) {
    forall q :: q in t && d <= q ==> !t[q].Link?
  }

  lemma ClosedIsSealed(t: Tree, d: Path)
    requires Closed(t, d)
    ensures Sealed(t, d)
  {
    forall p | d <= p && Real(t, p).Some? && t[Real(t, p).value] == Dir ensures d <= Real(t, p).value {
      assert Landing(t, p) == Real(t, p);
    }
  }

  /** Without links a directory that can be reached as it is keeps everything to itself. */
  lemma LinkFreeIsClosed(t: Tree, d: Path)
    requires WellFormed(t) && d != [] && Parent(d) in t && t[Parent(d)] == Dir && LinkFree(t, d)
    ensures Closed(t, d)
  {
    ExistingIsStraight(t, Parent(d));
    forall p | d <= p && Landing(t, p).Some? ensures d <= Landing(t, p).value {
      forall q | q <= p && q in t ensures !t[q].Link? {
        OnePath(q, d, p);
        if !(d <= q) { assert q <= Parent(d); }
      }
      StraightLanding(t, p);
    }
  }

  // ----- Walks in a tree that has grown -----

  /** A fresh path has nothing under it. */
  lemma NothingUnder(t: Tree, p: Path)
    requires WellFormed(t) && p !in t
    ensures forall q :: q in t ==> !(p <= q)
  {
    forall q | q in t ensures !(p <= q) {
      if p <= q { AncestorsIn(t, q, p); }
    }
  }

  lemma {:induction false} WalkInNew(t: Tree, u: Tree, at: Path, rest: Path, hops: nat)
    requires WellFormed(t) && Grown(t, u) && at in u && at !in t
    ensures var w := Walk(u, at, rest, hops); w.Way? && at <= w.at && w.at + w.left == at + rest
    decreases |rest|
  {
    if rest != [] && at + [rest[0]] in u {
      var next := at + [rest[0]];
      OneOn(at, rest);
      if next in t { AncestorsIn(t, next, at); }
      WalkInNew(t, u, next, rest[1..], hops);
    }
  }

  /** A walk in a tree that has grown runs through the same nodes, and perhaps further along its rest. */
  lemma {:induction false} WalkKept(t: Tree, u: Tree, at: Path, rest: Path, hops: nat)
    requires WellFormed(t) && Grown(t, u) && at in t
    ensures var w, v := Walk(t, at, rest, hops), Walk(u, at, rest, hops);
            (w.Loop? <==> v.Loop?) && (w.Way? ==> w.at + w.left == v.at + v.left)
    decreases hops, |rest|
  {
    assert Kept(t[at], u[at]);
    if rest != [] && t[at] == Dir {
      var next := at + [rest[0]];
      if next in t {
        assert Kept(t[next], u[next]);
        if !t[next].Link? {
          WalkKept(t, u, next, rest[1..], hops);
        } else if hops > 0 {
          WalkKept(t, u, [], t[next].to + rest[1..], hops - 1);
        }
      } else if next in u {
        OneOn(at, rest);
        WalkInNew(t, u, next, rest[1..], hops);
      }
    }
  }

  /** However a tree grows, no path comes to lead anywhere else. */
  lemma AimKept(t: Tree, u: Tree, p: Path)
    requires WellFormed(t) && Grown(t, u)
    ensures Aim(u, p) == Aim(t, p)
  {
    WalkKept(t, u, [], p, MAX_LINKS);
  }

  /** What a walk leaves over is not there. */
  lemma NotThere(t: Tree, at: Path, left: Path)
    requires WellFormed(t) && left != [] && (at in t && t[at] == Dir ==> at + [left[0]] !in t)
    ensures at + left !in t
  {
    if at + left in t {
      AncestorsIn(t, at + left, at);
      assert at + [left[0]] <= at + left;
      AncestorsIn(t, at + left, at + [left[0]]);
    }
  }

  lemma AimReal(t: Tree, p: Path)
    requires WellFormed(t)
    ensures Real(t, p) == if Aim(t, p).Some? && Aim(t, p).value in t then Aim(t, p) else None
    ensures Real(t, p).Some? ==> !t[Real(t, p).value].Link?
  {
    WalkEnd(t, [], p, MAX_LINKS);
    var w := Lead(t, p);
    if w.Way? {
      if w.left == [] { assert w.at + w.left == w.at; } else { NotThere(t, w.at, w.left); }
    }
  }

  /** What can be opened for writing: a file or directory that is there, or a place in an existing directory. */
  predicate Openable(t: Tree, y: Path) {
    if y in t then !t[y].Special? else y != [] && Parent(y) in t && t[Parent(y)] == Dir
  }

  lemma AimLanding(t: Tree, p: Path)
    requires WellFormed(t)
    ensures Landing(t, p) == if Aim(t, p).Some? && Openable(t, Aim(t, p).value) then Aim(t, p) else None
  {
    AimReal(t, p);
    var w := Lead(t, p);
    if w.Way? {
      WalkEnd(t, [], p, MAX_LINKS);
      var y := w.at + w.left;
      if w.left == [] {
        assert y == w.at;
      } else {
        LastStep(w.at, w.left, y);
        if Parent(y) in t && t[Parent(y)] == Dir && w.at != Parent(y) {
          AncestorsIn(t, Parent(y), w.at);
          AncestorsIn(t, Parent(y), w.at + [w.left[0]]);
        }
      }
    }
  }

  lemma SealedGrown(t: Tree, u: Tree, d: Path)
    requires WellFormed(t) && WellFormed(u) && Grown(t, u) && SameOutside(t, u, d) && Sealed(t, d)
    ensures Sealed(u, d)
  {
    forall p | d <= p && Real(u, p).Some? && u[Real(u, p).value] == Dir ensures d <= Real(u, p).value {
      AimKept(t, u, p);
      AimReal(t, p);
      AimReal(u, p);
    }
  }

  lemma ClosedGrown(t: Tree, u: Tree, d: Path)
    requires WellFormed(t) && WellFormed(u) && Grown(t, u) && SameOutside(t, u, d) && Closed(t, d)
    ensures Closed(u, d)
  {
    forall p | d <= p && Landing(u, p).Some? ensures d <= Landing(u, p).value {
      AimKept(t, u, p);
      AimLanding(t, p);
      AimLanding(u, p);
      var y := Landing(u, p).value;
      if y !in u && Parent(y) !in t { assert d <= Parent(y) && Parent(y) <= y; }
    }
  }

  // ----- What the operations write -----

  lemma SlotParent(t: Tree, p: Path)
    requires p != [] && Slot(t, p).Some?
    ensures var x := Slot(t, p).value; x != [] && Parent(x) in t && t[Parent(x)] == Dir && Parent(x) == Real(t, Parent(p)).value
  {
    var q := Real(t, Parent(p)).value;
    assert Parent(q + [p[|p| - 1]]) == q;
  }

  lemma LandingParent(t: Tree, p: Path)
    requires Landing(t, p).Some? && Landing(t, p).value !in t
    ensures var x := Landing(t, p).value; x != [] && Parent(x) in t && t[Parent(x)] == Dir
  {
    var w := Lead(t, p);
    assert Parent(w.at + w.left) == w.at;
  }

  lemma ExistingParent(t: Tree, x: Path)
    requires WellFormed(t) && x in t && t[x] != Dir
    ensures x != [] && Parent(x) in t && t[Parent(x)] == Dir
  {
  }

  lemma {:induction false} MadeDirsGrow(t: Tree, p: Path)
    requires WellFormed(t) && MadeDirs(t, p).Some?
    ensures WellFormed(MadeDirs(t, p).value) && Grown(t, MadeDirs(t, p).value)
    decreases |p|
  {
    if Real(t, p).None? {
      MadeDirsGrow(t, Parent(p));
      var v := MadeDirs(t, Parent(p)).value;
      var x := Slot(v, p).value;
      SlotParent(v, p);
      WritesGrow(v, x, Dir);
      GrownTwice(t, v, v[x := Dir]);
    }
  }

  lemma TruncatedGrow(t: Tree, p: Path, content: string)
    requires WellFormed(t) && Truncated(t, p, content).Some?
    ensures WellFormed(Truncated(t, p, content).value) && Grown(t, Truncated(t, p, content).value)
  {
    var x := Landing(t, p).value;
    if x in t { ExistingParent(t, x); } else { LandingParent(t, p); }
    WritesGrow(t, x, File(content));
  }

  /** A name in the directory a path leads to. */
  lemma AimBelow(t: Tree, p: Path, q: Path, c: string)
    requires WellFormed(t) && Real(t, p) == Some(q) && t[q] == Dir
    requires q + [c] in t ==> !t[q + [c]].Link?
    ensures Aim(t, p + [c]) == Some(q + [c])
  {
    var h := WalkOn(t, [], p, c, MAX_LINKS);
    WalkFirst(t, q, [c], h);
    assert [c][0] == c && [c][1..] == [] && q + [c] + [] == q + [c];
  }

  /** Directories that can be made are made where the path leads. */
  lemma {:induction false} MadeDirsAim(t: Tree, p: Path)
    requires WellFormed(t) && MadeDirs(t, p).Some?
    ensures Aim(t, p).Some? && MadeDirs(t, p) == MadeAll(t, Aim(t, p).value)
    decreases |p|
  {
    AimReal(t, p);
    if Real(t, p).None? {
      MadeDirsAim(t, Parent(p));
      MadeDirsGrow(t, Parent(p));
      var z, u, c := Aim(t, Parent(p)).value, MadeDirs(t, Parent(p)).value, p[|p| - 1];
      AimKept(t, u, Parent(p));
      MadeAllIs(t, z);
      AimReal(u, Parent(p));
      LastOf(p);
      AimBelow(u, Parent(p), z, c);
      AimKept(t, u, p);
      assert Parent(z + [c]) == z;
    }
  }

  // ----- What stays inside -----

  /** A directory to work in: there, and no path out of it. */
  ghost predicate Enclosed(t: Tree, d: Path) {
    WellFormed(t) && d in t && t[d] == Dir && Sealed(t, d)
  }

  lemma InsideOnce(t: Tree, d: Path, x: Path, n: Node)
    requires Enclosed(t, d) && d <= x && Writes(t, x, n)
    ensures Enclosed(t[x := n], d) && SameOutside(t, t[x := n], d)
  {
    WritesGrow(t, x, n);
    SealedGrown(t, t[x := n], d);
  }

  lemma OutsideTwice(t: Tree, u: Tree, v: Tree, d: Path)
    requires SameOutside(t, u, d) && SameOutside(u, v, d)
    ensures SameOutside(t, v, d)
  {
  }

  lemma SlotInside(t: Tree, d: Path, p: Path)
    requires Enclosed(t, d) && d <= p && p != d && Slot(t, p).Some?
    ensures d <= Slot(t, p).value
  {
    assert d <= Parent(p);
    SlotParent(t, p);
  }

  lemma RealItself(t: Tree, p: Path)
    requires WellFormed(t) && p in t && !t[p].Link?
    ensures Real(t, p) == Some(p)
  {
    ExistingIsStraight(t, p);
    StraightReal(t, p);
  }

  lemma {:induction false} MadeDirsInside(t: Tree, d: Path, p: Path)
    requires Enclosed(t, d) && d <= p && MadeDirs(t, p).Some?
    ensures Enclosed(MadeDirs(t, p).value, d) && SameOutside(t, MadeDirs(t, p).value, d)
    decreases |p|
  {
    if p == d {
      RealItself(t, d);
    } else if Real(t, p).None? {
      assert d <= Parent(p);
      MadeDirsInside(t, d, Parent(p));
      var v := MadeDirs(t, Parent(p)).value;
      var x := Slot(v, p).value;
      SlotInside(v, d, p);
      SlotParent(v, p);
      InsideOnce(v, d, x, Dir);
      OutsideTwice(t, v, v[x := Dir], d);
    }
  }

  lemma RenamedInside(t: Tree, d: Path, p: Path, content: string)
    requires Enclosed(t, d) && d <= p && Renamed(t, p, content).Some?
    ensures Enclosed(Renamed(t, p, content).value, d) && SameOutside(t, Renamed(t, p, content).value, d)
  {
    if p == d {
      AncestorsIn(t, d, Parent(d));
      ExistingIsStraight(t, Parent(d));
      StraightSlot(t, d);
    } else {
      SlotInside(t, d, p);
      SlotParent(t, p);
      InsideOnce(t, d, Slot(t, p).value, File(content));
    }
  }

  lemma TruncatedInside(t: Tree, d: Path, p: Path, content: string)
    requires WellFormed(t) && Closed(t, d) && d <= p && Truncated(t, p, content).Some?
    ensures var u := Truncated(t, p, content).value; Closed(u, d) && SameOutside(t, u, d)
  {
    TruncatedGrow(t, p, content);
    ClosedGrown(t, Truncated(t, p, content).value, d);
  }
}
