/**
 The file system the backup code works on, and its recursive copy: a walk that does not
 follow links at its source, and writes that do follow them at the target.
 */
module Copying {
  import opened Text
  import opened FileTree
  import opened Links

  // ----- Copying one node -----

  datatype Step = Step(ok: bool, tree: Tree)

  predicate DirAt(t: Tree, p: Path) {
    p in t && t[p].Dir?
  }

  /** Directories are made, regular files written, anything else passed over. */
  function CopyOne(t: Tree, n: Node, x: Path): Step {
    match n
    case Dir => (match MadeDirs(t, x) case None => Step(false, t) case Some(u) => Step(true, u))
    case File(c) =>
      if x == [] then Step(false, t)
      else (match MadeDirs(t, Parent(x))
            case None => Step(false, t)
            case Some(u) => (match Truncated(u, x, c) case None => Step(false, u) case Some(v) => Step(true, v)))
    case _ => Step(true, t)
  }

  function Children(t: Tree, q: Path): set<Path> {
    set p | p in t && p != [] && Parent(p) == q
  }

  lemma CopyOneGrows(t: Tree, n: Node, x: Path)
    requires WellFormed(t)
    ensures WellFormed(CopyOne(t, n, x).tree) && Grown(t, CopyOne(t, n, x).tree)
  {
    match n {
      case Dir => if MadeDirs(t, x).Some? { MadeDirsGrow(t, x); }
      case File(c) =>
        if x != [] && MadeDirs(t, Parent(x)).Some? {
          MadeDirsGrow(t, Parent(x));
          var u := MadeDirs(t, Parent(x)).value;
          if Truncated(u, x, c).Some? {
            TruncatedGrow(u, x, c);
            GrownTwice(t, u, Truncated(u, x, c).value);
          }
        }
      case _ =>
    }
  }

  // ----- What a copy leaves -----

  /** The node is at `y`, with the directories above it; nothing else has changed. */
  ghost predicate Settled(t: Tree, u: Tree, n: Node, y: Path) {
    && y in u && u[y] == n
    && (forall q :: q in t ==> q in u && (q != y ==> u[q] == t[q]))
    && (forall q :: q in u && q !in t ==> q <= y && (q != y ==> u[q] == Dir))
  }

  lemma DirSettled(t: Tree, x: Path)
    requires WellFormed(t) && MadeDirs(t, x).Some?
    ensures Aim(t, x).Some? && Settled(t, MadeDirs(t, x).value, Dir, Aim(t, x).value)
  {
    MadeDirsAim(t, x);
    MadeAllIs(t, Aim(t, x).value);
  }

  /** Below a directory just made, a missing name is where it is written. */
  lemma BelowNewAim(t: Tree, u: Tree, p: Path, z: Path, c: string)
    requires WellFormed(t) && WellFormed(u) && Grown(t, u) && Aim(t, p) == Some(z) && z !in t && DirAt(u, z)
    requires forall q :: q in u && q !in t ==> q <= z
    ensures Aim(t, p + [c]) == Some(z + [c])
  {
    AimKept(t, u, p);
    AimKept(t, u, p + [c]);
    AimReal(u, p);
    NothingUnder(t, z);
    assert z <= z + [c] && !(z + [c] <= z);
    AimBelow(u, p, z, c);
  }

  lemma NothingMade(t: Tree, p: Path)
    requires WellFormed(t) && MadeDirs(t, p).Some? && Aim(t, p).Some? && Aim(t, p).value in t
    ensures MadeDirs(t, p).value == t
  {
    AimReal(t, p);
  }

  lemma FileSettled(t: Tree, x: Path, c: string)
    requires WellFormed(t) && x != [] && MadeDirs(t, Parent(x)).Some? && Truncated(MadeDirs(t, Parent(x)).value, x, c).Some?
    ensures Aim(t, x).Some?
    ensures Settled(t, Truncated(MadeDirs(t, Parent(x)).value, x, c).value, File(c), Aim(t, x).value)
  {
    var u := MadeDirs(t, Parent(x)).value;
    MadeDirsGrow(t, Parent(x));
    AimKept(t, u, x);
    AimLanding(u, x);
    DirSettled(t, Parent(x));
    var z := Aim(t, Parent(x)).value;
    if z in t {
      NothingMade(t, Parent(x));
    } else {
      LastOf(x);
      BelowNewAim(t, u, Parent(x), z, x[|x| - 1]);
    }
    SettledIn(t, u, z, Aim(t, x).value, c);
  }

  /** A file written in directories made before. */
  lemma SettledIn(t: Tree, u: Tree, z: Path, y: Path, c: string)
    requires Settled(t, u, Dir, z) && (if z in t then u == t else z <= y)
    ensures Settled(t, u[y := File(c)], File(c), y)
  {
  }

  /** A copy that succeeds has put its node where the path leads. */
  lemma CopySettles(t: Tree, n: Node, x: Path)
    requires WellFormed(t) && Copied(n) && CopyOne(t, n, x).ok
    ensures Aim(t, x).Some? && Settled(t, CopyOne(t, n, x).tree, n, Aim(t, x).value)
  {
    if n.Dir? { DirSettled(t, x); } else { FileSettled(t, x, n.content); }
  }

  // ----- Copies that stay inside -----

  /** The target of a copy: closed, and in an existing directory. */
  ghost predicate Target(t: Tree, d: Path) {
    WellFormed(t) && d != [] && Parent(d) in t && t[Parent(d)] == Dir && Closed(t, d)
  }

  lemma TargetGrown(t: Tree, u: Tree, d: Path)
    requires Target(t, d) && WellFormed(u) && Grown(t, u) && SameOutside(t, u, d)
    ensures Target(u, d)
  {
    ClosedGrown(t, u, d);
    assert !(d <= Parent(d));
  }

  /** Directories made at or below the target. */
  lemma {:induction false} MadeAtTarget(t: Tree, d: Path, p: Path)
    requires Target(t, d) && d <= p && MadeDirs(t, p).Some?
    ensures Target(MadeDirs(t, p).value, d) && SameOutside(t, MadeDirs(t, p).value, d)
    decreases |p|
  {
    if Real(t, p).None? {
      MadeDirsGrow(t, p);
      if p == d {
        MadeAtTop(t, d);
      } else {
        assert d <= Parent(p);
        MadeAtTarget(t, d, Parent(p));
        var v := MadeDirs(t, Parent(p)).value;
        var x := Slot(v, p).value;
        SlotAtTarget(v, d, p);
        OutsideTwice(t, v, v[x := Dir], d);
      }
      TargetGrown(t, MadeDirs(t, p).value, d);
    }
  }

  lemma SlotAtTarget(t: Tree, d: Path, p: Path)
    requires Closed(t, d) && d <= p && p != d && Slot(t, p).Some?
    ensures d <= Slot(t, p).value
  {
    assert d <= Parent(p);
    ClosedIsSealed(t, d);
    SlotParent(t, p);
  }

  lemma MadeAtTop(t: Tree, d: Path)
    requires Target(t, d) && Real(t, d).None? && MadeDirs(t, d).Some?
    ensures SameOutside(t, MadeDirs(t, d).value, d)
  {
    RealItself(t, Parent(d));
    ExistingIsStraight(t, Parent(d));
    StraightSlot(t, d);
  }

  /** Where the target is a directory or missing, its parent needs nothing made. */
  lemma CopyInside(t: Tree, d: Path, n: Node, x: Path)
    requires Target(t, d) && d <= x
    ensures var u := CopyOne(t, n, x).tree; Target(u, d) && SameOutside(t, u, d)
  {
    CopyOneGrows(t, n, x);
    match n {
      case Dir => if MadeDirs(t, x).Some? { MadeAtTarget(t, d, x); }
      case File(c) =>
        if MadeDirs(t, Parent(x)).Some? {
          var u := MadeDirs(t, Parent(x)).value;
          if x == d {
            RealItself(t, Parent(d));
          } else {
            assert d <= Parent(x);
            MadeAtTarget(t, d, Parent(x));
          }
          if Truncated(u, x, c).Some? {
            TruncatedInside(u, d, x, c);
            OutsideTwice(t, u, Truncated(u, x, c).value, d);
          }
        }
        TargetGrown(t, CopyOne(t, n, x).tree, d);
      case _ =>
    }
  }
}
