/**
 Copying a directory: a walk that reads the names in a directory before it copies it, and
 goes on with those. What it copies into places of its own source it will meet again.
 */
module CopyWalk {
  import opened Text
  import opened FileTree
  import opened Links
  import opened Copying

  /** The target lies elsewhere, or right in the source, where its name is read too early to be met again. */
  predicate Shallow(s: Path, d: Path) {
    Apart(s, d) || (d != [] && Parent(d) == s)
  }

  /** The target lies further down in the source. */
  predicate Deep(s: Path, d: Path) {
    d != [] && s <= Parent(d) && s != Parent(d)
  }

  lemma ShallowOrDeep(s: Path, d: Path)
    requires !(d <= s)
    ensures Shallow(s, d) || Deep(s, d)
  {
    if s <= d { assert s <= Parent(d); }
  }

  // ----- One node -----

  /** A node met by the walk; links and special files are passed over. */
  function Visited(t: Tree, s: Path, d: Path, q: Path): Step
    requires q in t && s <= q
  {
    CopyOne(t, t[q], Moved(s, d, q))
  }

  /** In an existing directory, where no link is in the place, a copy is made in that very place. */
  lemma PlainCopy(t: Tree, n: Node, x: Path)
    requires WellFormed(t) && x != [] && Parent(x) in t && t[Parent(x)] == Dir && (x in t ==> !t[x].Link?) && Copied(n)
    ensures CopyOne(t, n, x) == if x in t && !Compatible(t[x], n) then Step(false, t) else Step(true, t[x := n])
  {
    BelowIsStraight(t, x);
    if n.Dir? {
      MadeStraight(t, x);
      MadeOne(t, x);
      if x in t && t[x] == Dir { assert t[x := Dir] == t; }
    } else {
      StraightPrefix(t, x, Parent(x));
      MadeStraight(t, Parent(x));
      TruncatedStraight(t, x, n.content);
    }
  }

  // ----- A walk over an unchanging source -----

  /** Visited nodes and listed ones, and nothing left out between them. */
  ghost predicate Listed(t: Tree, s: Path, seen: set<Path>, todo: set<Path>) {
    && (s in seen || s in todo)
    && (forall q :: q in seen ==> q in t && s <= q && q !in todo && (q != s ==> q != [] && Parent(q) in seen))
    && (forall q :: q in todo ==> q in t && s <= q && (q != s ==> q != [] && Parent(q) in seen))
    && (forall p :: p in t && p != [] && Parent(p) in seen ==> p in seen || p in todo)
  }

  /** What a walk knows while its writes stay below the target. */
  ghost predicate Tidy(t0: Tree, t: Tree, s: Path, d: Path, seen: set<Path>, todo: set<Path>) {
    SameOutside(t0, t, d) && (seen == {} ==> t == t0) && Listed(t0, s, seen, todo)
  }

  /** A target that a walk over the source never meets. */
  ghost predicate Away(t0: Tree, s: Path, d: Path) {
    WellFormed(t0) && Shallow(s, d) && !(d <= s) && (s <= d ==> d !in t0)
  }

  lemma NotAtTarget(t0: Tree, s: Path, d: Path, q: Path)
    requires Away(t0, s, d) && q in t0 && s <= q
    ensures !(d <= q)
  {
    if Apart(s, d) {
      BothBelow(s, d, q);
    } else {
      NothingUnder(t0, d);
    }
  }

  lemma {:induction false} UpToTop(seen: set<Path>, s: Path, q: Path)
    requires q in seen && forall x :: x in seen && x != s ==> x != [] && Parent(x) in seen
    ensures s in seen
    decreases |q|
  {
    if q != s { UpToTop(seen, s, Parent(q)); }
  }

  lemma SeenHasTop(t0: Tree, t: Tree, s: Path, d: Path, seen: set<Path>, todo: set<Path>)
    requires Tidy(t0, t, s, d, seen, todo) && s in todo
    ensures seen == {} && t == t0
  {
    if seen != {} {
      var q :| q in seen;
      UpToTop(seen, s, q);
    }
  }

  lemma ChildrenSame(t0: Tree, t: Tree, s: Path, d: Path, seen: set<Path>, todo: set<Path>, q: Path)
    requires Away(t0, s, d) && Tidy(t0, t, s, d, seen, todo) && q in todo
    ensures q in t && t[q] == t0[q] && Children(t, q) == Children(t0, q)
  {
    NotAtTarget(t0, s, d, q);
    if q == s { SeenHasTop(t0, t, s, d, seen, todo); }
    assert d != [] && s <= Parent(d) ==> s <= d;
    forall p ensures p in Children(t, q) <==> p in Children(t0, q) {
      if p in t0 && p != [] && Parent(p) == q { NotAtTarget(t0, s, d, p); }
      if p in t && p !in t0 && p != [] && Parent(p) == q { NewBelow(t0, t, d, q, p); }
    }
  }

  lemma NewBelow(t0: Tree, t: Tree, d: Path, q: Path, p: Path)
    requires SameOutside(t0, t, d) && p in t && p !in t0 && p != [] && Parent(p) == q && !(d <= q)
    ensures p == d
  {
    assert d <= p;
  }

  lemma TidyStep(t0: Tree, t: Tree, u: Tree, s: Path, d: Path, seen: set<Path>, todo: set<Path>, q: Path)
    requires Away(t0, s, d) && Tidy(t0, t, s, d, seen, todo) && q in todo && SameOutside(t, u, d)
    ensures Tidy(t0, u, s, d, seen + {q}, (todo - {q}) + Children(t, q))
  {
    ChildrenSame(t0, t, s, d, seen, todo, q);
    OutsideTwice(t0, t, u, d);
    ListedStep(t0, s, seen, todo, q);
  }

  lemma ListedStep(t: Tree, s: Path, seen: set<Path>, todo: set<Path>, q: Path)
    requires Listed(t, s, seen, todo) && q in todo
    ensures Listed(t, s, seen + {q}, (todo - {q}) + Children(t, q))
  {
    var more := seen + {q};
    forall p | p in Children(t, q) ensures p in t && s <= p && p != s && p !in more && p != [] && Parent(p) in more {
      assert s <= q && q <= p && |p| == |q| + 1;
    }
    forall p | p in t && p != [] && Parent(p) in more ensures p in more || p in (todo - {q}) + Children(t, q) {
      if Parent(p) == q { assert p in Children(t, q); }
    }
  }

  lemma {:induction false} AllSeen(t0: Tree, s: Path, seen: set<Path>, p: Path)
    requires WellFormed(t0) && Listed(t0, s, seen, {}) && p in t0 && s <= p
    ensures p in seen
    decreases |p|
  {
    if p != s {
      assert s <= Parent(p);
      AllSeen(t0, s, seen, Parent(p));
    }
  }

  // ----- Copies in their very places -----

  function Taken(t0: Tree, seen: set<Path>): set<Path>
    requires forall q :: q in seen ==> q in t0
  {
    set q | q in seen && Copied(t0[q])
  }

  /** The copies made so far, where the target holds no link. */
  ghost predicate Laid(t0: Tree, t: Tree, s: Path, d: Path, seen: set<Path>)
    requires forall q :: q in seen ==> q in t0 && s <= q
  {
    t == Overlay(t0, t0, s, d, Taken(t0, seen))
  }

  lemma LinkFreeGrown(t: Tree, u: Tree, d: Path)
    requires LinkFree(t, d) && Grown(t, u)
    ensures LinkFree(u, d)
  {
    forall q | q in u && d <= q ensures !u[q].Link? {
      if q in t { assert Kept(t[q], u[q]); }
    }
  }

  lemma TakenNext(t0: Tree, s: Path, seen: set<Path>, q: Path)
    requires (forall p :: p in seen ==> p in t0 && s <= p) && q in t0 && s <= q
    ensures Taken(t0, seen) <= Sources(t0, s)
    ensures Taken(t0, seen + {q}) == if Copied(t0[q]) then Taken(t0, seen) + {q} else Taken(t0, seen)
  {
  }

  /** The next copy goes to its place, or finds something of another kind there. */
  lemma LaidStep(t0: Tree, t: Tree, s: Path, d: Path, seen: set<Path>, todo: set<Path>, q: Path)
    requires Away(t0, s, d) && d != [] && Parent(d) in t0 && t0[Parent(d)] == Dir && LinkFree(t0, d)
    requires WellFormed(t) && Grown(t0, t) && Tidy(t0, t, s, d, seen, todo) && Laid(t0, t, s, d, seen) && q in todo
    ensures q in t && s <= q
    ensures Visited(t, s, d, q).ok ==> Laid(t0, Visited(t, s, d, q).tree, s, d, seen + {q})
    ensures !Visited(t, s, d, q).ok ==> !NoConflict(t0, s, d)
  {
    ChildrenSame(t0, t, s, d, seen, todo, q);
    TakenNext(t0, s, seen, q);
    if Copied(t0[q]) {
      var x, done := Moved(s, d, q), Taken(t0, seen);
      if q != s { ParentIsSource(t0, s, q); }
      ParentReady(t0, t0, s, d, done, q);
      LinkFreeGrown(t0, t, d);
      MovedBack(s, d, q);
      PlainCopy(t, t0[q], x);
      OverlayStep(t0, t0, s, d, done, q);
      if x in t && !Compatible(t[x], t0[q]) { InTheWay(t0, s, d, done, q); }
    }
  }

  lemma LaidWhole(t0: Tree, t: Tree, s: Path, d: Path, seen: set<Path>)
    requires WellFormed(t0) && Tidy(t0, t, s, d, seen, {}) && Laid(t0, t, s, d, seen)
    ensures s in t0 && t == Overlay(t0, t0, s, d, Sources(t0, s))
  {
    forall p | p in Sources(t0, s) ensures p in seen { AllSeen(t0, s, seen, p); }
    assert Taken(t0, seen) == Sources(t0, s);
  }

  lemma NothingLaid(t: Tree, s: Path, d: Path)
    ensures Overlay(t, t, s, d, {}) == t
  {
    var o := Overlay(t, t, s, d, {});
    forall x ensures x in o <==> x in t { OverlayElse(t, t, s, d, {}, x); }
    forall x | x in t ensures o[x] == t[x] { OverlayElse(t, t, s, d, {}, x); }
  }

  // ----- A target further down in the source -----

  /** The first `n` components of `m` again and again. */
  function Cycle(m: Path, n: nat): (r: Path)
    requires m != []
    ensures |r| == n
    decreases n
  {
    if n <= |m| then m[..n] else m + Cycle(m, n - |m|)
  }

  lemma {:induction false} CycleOn(m: Path, n: nat)
    requires m != []
    ensures Cycle(m, n + 1)[..n] == Cycle(m, n)
    decreases n
  {
    if n + 1 <= |m| {
    } else if n == |m| {
      assert (m + Cycle(m, 1))[..n] == m;
    } else {
      CycleOn(m, n - |m|);
      assert (m + Cycle(m, n + 1 - |m|))[..n] == m + Cycle(m, n + 1 - |m|)[..n - |m|];
    }
  }

  lemma CycleShift(m: Path, k: nat)
    requires m != []
    ensures m + Cycle(m, k) == Cycle(m, |m| + k)
  {
  }

  /** The way from the source to its copy, and on to the copy of the copy. */
  function Spine(s: Path, m: Path, n: nat): Path
    requires m != []
  {
    s + Cycle(m, n)
  }

  lemma SpineParent(s: Path, m: Path, n: nat)
    requires m != []
    ensures Spine(s, m, n + 1) != [] && Parent(Spine(s, m, n + 1)) == Spine(s, m, n) && s <= Spine(s, m, n)
  {
    CycleOn(m, n);
    assert Spine(s, m, n + 1)[..|s| + n] == s + Cycle(m, n + 1)[..n];
  }

  lemma SpineMoved(s: Path, m: Path, n: nat)
    requires m != []
    ensures s <= Spine(s, m, n) && Moved(s, s + m, Spine(s, m, n)) == Spine(s, m, |m| + n)
  {
    CycleShift(m, n);
    assert Spine(s, m, n)[|s|..] == Cycle(m, n);
    assert (s + m) + Cycle(m, n) == s + (m + Cycle(m, n));
  }

  /** The next directory on the way is listed, and the way is made one turn ahead. */
  ghost predicate Ahead(t: Tree, s: Path, m: Path, n: nat, todo: set<Path>)
    requires m != []
  {
    Spine(s, m, n) in todo && forall k :: 0 <= k < |m| + n ==> DirAt(t, Spine(s, m, k))
  }

  lemma AheadStart(t: Tree, s: Path, m: Path)
    requires WellFormed(t) && m != [] && DirAt(t, Parent(s + m))
    ensures Ahead(t, s, m, 0, {s})
  {
    assert Spine(s, m, 0) == s + [] == s;
    forall k | 0 <= k < |m| + 0 ensures DirAt(t, Spine(s, m, k)) {
      assert Spine(s, m, k) <= Parent(s + m);
      AncestorsIn(t, Parent(s + m), Spine(s, m, k));
    }
  }

  lemma AheadKept(t: Tree, u: Tree, s: Path, m: Path, n: nat, todo: set<Path>, q: Path, names: set<Path>)
    requires m != [] && Ahead(t, s, m, n, todo) && Grown(t, u) && q != Spine(s, m, n)
    ensures Ahead(u, s, m, n, (todo - {q}) + names)
  {
    forall k | 0 <= k < |m| + n ensures DirAt(u, Spine(s, m, k)) {
      assert DirAt(t, Spine(s, m, k));
      assert Kept(t[Spine(s, m, k)], u[Spine(s, m, k)]);
    }
  }

  lemma AheadNext(t: Tree, s: Path, m: Path, n: nat, todo: set<Path>)
    requires |m| > 1 && WellFormed(t) && Ahead(t, s, m, n, todo)
    requires var x := Spine(s, m, |m| + n); x in t ==> !t[x].Link?
    ensures var q := Spine(s, m, n);
            && q in t && s <= q
            && (Visited(t, s, s + m, q).ok ==>
                  Ahead(Visited(t, s, s + m, q).tree, s, m, n + 1, (todo - {q}) + Children(t, q)))
  {
    var q, x := Spine(s, m, n), Spine(s, m, |m| + n);
    assert DirAt(t, q) && DirAt(t, Spine(s, m, n + 1)) && DirAt(t, Spine(s, m, |m| + n - 1));
    SpineParent(s, m, n);
    SpineParent(s, m, |m| + n - 1);
    SpineMoved(s, m, n);
    PlainCopy(t, Dir, x);
    var r := Visited(t, s, s + m, q);
    if r.ok {
      forall k | 0 <= k < |m| + (n + 1) ensures DirAt(r.tree, Spine(s, m, k)) {
        if k < |m| + n { assert DirAt(t, Spine(s, m, k)); }
      }
      assert Spine(s, m, n + 1) in Children(t, q) && Spine(s, m, n + 1) != q;
    }
  }

  // ----- Nodes delivered where their paths lead -----

  /** A node and the place it goes to. */
  datatype Good = Good(at: Path, node: Node)

  function Goods(t: Tree, s: Path, d: Path, done: set<Path>): set<Good>
    requires done <= Sources(t, s)
  {
    set q | q in done && Aim(t, Moved(s, d, q)).Some? :: Good(Aim(t, Moved(s, d, q)).value, t[q])
  }

  /** Nothing goes to a place at or below `s`. */
  predicate Misses(goods: set<Good>, s: Path) {
    forall g :: g in goods ==> !(s <= g.at)
  }

  /** A node that is old, or delivered, or a missing directory above something delivered. */
  ghost predicate Explained(t0: Tree, t: Tree, goods: set<Good>, x: Path)
    requires x in t
  {
    || (x in t0 && t[x] == t0[x])
    || Good(x, t[x]) in goods
    || (x !in t0 && t[x] == Dir && exists g :: g in goods && x <= g.at)
  }

  /** Each place holds its node, or another of that kind delivered to the same place. */
  ghost predicate AllThere(t: Tree, goods: set<Good>) {
    forall g :: g in goods ==> g.at in t && Good(g.at, t[g.at]) in goods && (t[g.at].Dir? <==> g.node.Dir?)
  }

  ghost predicate Delivered(t0: Tree, t: Tree, goods: set<Good>) {
    AllThere(t, goods) && forall x :: x in t ==> Explained(t0, t, goods, x)
  }

  lemma DeliveredStep(t0: Tree, t: Tree, u: Tree, goods: set<Good>, n: Node, y: Path)
    requires Grown(t0, t) && Grown(t, u) && Delivered(t0, t, goods) && Settled(t, u, n, y)
    ensures Delivered(t0, u, goods + {Good(y, n)})
  {
    var more := goods + {Good(y, n)};
    forall g | g in more ensures g.at in u && Good(g.at, u[g.at]) in more && (u[g.at].Dir? <==> g.node.Dir?) {
      if g in goods { assert Kept(t[g.at], u[g.at]); }
    }
    forall x | x in u ensures Explained(t0, u, more, x) {
      if x in t { assert Explained(t0, t, goods, x); } else { assert Good(y, n) in more && x <= y; }
    }
  }

  lemma GoodsStep(t: Tree, s: Path, d: Path, done: set<Path>, q: Path)
    requires done <= Sources(t, s) && q in Sources(t, s) && Aim(t, Moved(s, d, q)).Some?
    ensures Goods(t, s, d, done + {q}) == Goods(t, s, d, done) + {Good(Aim(t, Moved(s, d, q)).value, t[q])}
  {
  }

  /** One more source copied. */
  lemma CopyDelivers(t0: Tree, t: Tree, s: Path, d: Path, done: set<Path>, q: Path)
    requires WellFormed(t0) && WellFormed(t) && Grown(t0, t) && done <= Sources(t0, s) && q in Sources(t0, s)
    requires Delivered(t0, t, Goods(t0, s, d, done)) && CopyOne(t, t0[q], Moved(s, d, q)).ok
    ensures Delivered(t0, CopyOne(t, t0[q], Moved(s, d, q)).tree, Goods(t0, s, d, done + {q}))
  {
    CopyOneGrows(t, t0[q], Moved(s, d, q));
    AimKept(t0, t, Moved(s, d, q));
    CopySettles(t, t0[q], Moved(s, d, q));
    DeliveredStep(t0, t, CopyOne(t, t0[q], Moved(s, d, q)).tree, Goods(t0, s, d, done), t0[q], Aim(t0, Moved(s, d, q)).value);
    GoodsStep(t0, s, d, done, q);
  }

  /** Deliveries that miss a place leave what is at and below it. */
  lemma MissedIsSame(t0: Tree, t: Tree, goods: set<Good>, s: Path)
    requires Misses(goods, s) && Grown(t0, t) && Delivered(t0, t, goods)
    ensures SameAt(t0, t, s)
  {
    forall x | s <= x && x in t ensures x in t0 && t[x] == t0[x] {
      assert Explained(t0, t, goods, x);
      assert forall g :: g in goods && x <= g.at ==> s <= g.at;
    }
  }

  /** A directory that is there, or a place a file can be written to. */
  predicate Welcomes(t: Tree, g: Good) {
    if g.node.Dir? then g.at in t && t[g.at].Dir?
    else g.at != [] && Parent(g.at) in t && t[Parent(g.at)] == Dir && (g.at in t ==> t[g.at].File?)
  }

  /** Where all are welcome, each still is when some have been delivered. */
  lemma StillWelcome(t0: Tree, t: Tree, goods: set<Good>, some: set<Good>, g: Good)
    requires WellFormed(t0) && Grown(t0, t) && some <= goods && Delivered(t0, t, some)
    requires (forall h :: h in goods ==> Welcomes(t0, h)) && g in goods && (g.node.Dir? || g.node.File?)
    ensures Welcomes(t, g)
  {
    if g.node.File? && g.at in t && g.at !in t0 {
      assert Explained(t0, t, some, g.at);
      if Good(g.at, t[g.at]) in some {
        assert Welcomes(t0, Good(g.at, t[g.at]));
      } else {
        var h :| h in some && g.at <= h.at;
        assert Welcomes(t0, h);
        NoNewAbove(t0, t, some, g.at, h);
      }
    }
  }

  /** No directory is missing above what is welcome. */
  lemma NoNewAbove(t0: Tree, t: Tree, some: set<Good>, x: Path, h: Good)
    requires WellFormed(t0) && Delivered(t0, t, some) && h in some && Welcomes(t0, h) && x <= h.at && x in t
    requires Good(x, t[x]) !in some
    ensures x in t0
  {
    if x == h.at {
      assert Good(h.at, t[h.at]) in some;
    } else {
      assert x <= Parent(h.at);
      if h.node.Dir? { AncestorsIn(t0, h.at, x); } else { AncestorsIn(t0, Parent(h.at), x); }
    }
  }

  lemma WelcomedIsCopied(t: Tree, n: Node, x: Path)
    requires WellFormed(t) && Copied(n) && x != [] && Aim(t, x).Some? && Welcomes(t, Good(Aim(t, x).value, n))
    ensures CopyOne(t, n, x).ok
  {
    AimReal(t, x);
    if n.File? {
      AimLanding(t, x);
      LandingAbove(t, x);
    }
  }

  // ----- What the walk keeps -----

  /** The nodes visited, and how far along the way to its own copies a walk is. */
  datatype Run = Run(seen: set<Path>, n: nat)

  ghost predicate Tame(t0: Tree, s: Path, d: Path) {
    Away(t0, s, d) && Closed(t0, d)
  }

  /** No source is copied into the source. */
  ghost predicate Clear(t0: Tree, s: Path, d: Path) {
    Misses(Goods(t0, s, d, Sources(t0, s)), s)
  }

  /** Every source finds the directory, or the place for a file, that its path leads to. */
  ghost predicate Welcome(t0: Tree, s: Path, d: Path) {
    forall q :: q in Sources(t0, s) ==> Welcomed(t0, Aim(t0, Moved(s, d, q)), t0[q])
  }

  predicate Welcomed(t: Tree, aim: Option<Path>, n: Node) {
    aim.Some? && Welcomes(t, Good(aim.value, n))
  }

  /** While it copies nothing into its source, a walk goes through the source as it was and delivers what it meets. */
  ghost predicate Delivering(t0: Tree, t: Tree, s: Path, d: Path, seen: set<Path>, todo: set<Path>) {
    Clear(t0, s, d) ==> Listed(t0, s, seen, todo) && Delivered(t0, t, Goods(t0, s, d, Taken(t0, seen)))
  }

  lemma GoodsGrow(t: Tree, s: Path, d: Path, done: set<Path>)
    requires done <= Sources(t, s)
    ensures Goods(t, s, d, done) <= Goods(t, s, d, Sources(t, s))
  {
  }

  /** The next node is met as it was in the beginning. */
  lemma MetAsItWas(t0: Tree, t: Tree, s: Path, d: Path, seen: set<Path>, todo: set<Path>, q: Path)
    requires Grown(t0, t) && Clear(t0, s, d) && Delivering(t0, t, s, d, seen, todo) && q in todo
    ensures Taken(t0, seen) <= Sources(t0, s)
    ensures SameAt(t0, t, s) && q in t0 && s <= q && q in t && t[q] == t0[q] && Children(t, q) == Children(t0, q)
  {
    GoodsGrow(t0, s, d, Taken(t0, seen));
    MissedIsSame(t0, t, Goods(t0, s, d, Taken(t0, seen)), s);
    forall p | p != [] && Parent(p) == q ensures s <= p { assert s <= q && q <= p; }
  }

  lemma DeliveringStep(t0: Tree, t: Tree, s: Path, d: Path, seen: set<Path>, todo: set<Path>, q: Path)
    requires WellFormed(t0) && WellFormed(t) && Grown(t0, t) && Clear(t0, s, d) && Delivering(t0, t, s, d, seen, todo) && q in todo
    ensures q in t && s <= q
    ensures Visited(t, s, d, q).ok ==>
              Delivering(t0, Visited(t, s, d, q).tree, s, d, seen + {q}, (todo - {q}) + Children(t, q))
  {
    MetAsItWas(t0, t, s, d, seen, todo, q);
    ListedStep(t0, s, seen, todo, q);
    TakenNext(t0, s, seen, q);
    if Visited(t, s, d, q).ok && Copied(t0[q]) { CopyDelivers(t0, t, s, d, Taken(t0, seen), q); }
  }

  /** Where all sources are welcome, no copy fails. */
  lemma WelcomeStep(t0: Tree, t: Tree, s: Path, d: Path, seen: set<Path>, todo: set<Path>, q: Path)
    requires WellFormed(t0) && WellFormed(t) && Grown(t0, t) && Clear(t0, s, d) && Delivering(t0, t, s, d, seen, todo) && q in todo
    requires Welcome(t0, s, d) && d != []
    ensures q in t && s <= q && Visited(t, s, d, q).ok
  {
    MetAsItWas(t0, t, s, d, seen, todo, q);
    if Copied(t0[q]) {
      var x := Moved(s, d, q);
      var all := Goods(t0, s, d, Sources(t0, s));
      var g := Good(Aim(t0, x).value, t0[q]);
      GoodsGrow(t0, s, d, Taken(t0, seen));
      forall h | h in all ensures Welcomes(t0, h) {}
      assert q in Sources(t0, s) && g in all;
      StillWelcome(t0, t, all, Goods(t0, s, d, Taken(t0, seen)), g);
      AimKept(t0, t, x);
      WelcomedIsCopied(t, t0[q], x);
    }
  }

  lemma DeliveredAll(t0: Tree, t: Tree, s: Path, d: Path, seen: set<Path>)
    requires WellFormed(t0) && Clear(t0, s, d) && Delivering(t0, t, s, d, seen, {})
    ensures Delivered(t0, t, Goods(t0, s, d, Sources(t0, s)))
  {
    forall p | p in Sources(t0, s) ensures p in seen { AllSeen(t0, s, seen, p); }
    assert Taken(t0, seen) == Sources(t0, s);
  }

  ghost predicate Under(t0: Tree, t: Tree, s: Path, d: Path, run: Run, todo: set<Path>) {
    && WellFormed(t0) && d != [] && DirAt(t0, Parent(d)) && !(d <= s) && (s <= d ==> d !in t0) && s in t0
    && WellFormed(t) && Grown(t0, t) && (forall q :: q in todo ==> q in t && s <= q)
    && (Closed(t0, d) ==> SameOutside(t0, t, d))
    && (Tame(t0, s, d) ==> Tidy(t0, t, s, d, run.seen, todo))
    && Delivering(t0, t, s, d, run.seen, todo)
    && (Tame(t0, s, d) && LinkFree(t0, d) ==>
          (forall q :: q in run.seen ==> q in t0 && s <= q) && Laid(t0, t, s, d, run.seen))
    && (Deep(s, d) ==> |d| > |s| && Ahead(t, s, d[|s|..], run.n, todo))
  }

  lemma Begun(t0: Tree, s: Path, d: Path) returns (run: Run)
    requires WellFormed(t0) && d != [] && DirAt(t0, Parent(d)) && !(d <= s) && (s <= d ==> d !in t0) && s in t0
    ensures Under(t0, t0, s, d, run, {s})
  {
    run := Run({}, 0);
    NothingLaid(t0, s, d);
    assert Taken(t0, {}) == {} && Goods(t0, s, d, {}) == {};
    if Deep(s, d) {
      assert s + d[|s|..] == d;
      AheadStart(t0, s, d[|s|..]);
    }
  }

  lemma VisitGrows(t0: Tree, t: Tree, s: Path, d: Path, run: Run, todo: set<Path>, q: Path)
    requires Under(t0, t, s, d, run, todo) && q in todo
    ensures q in t && s <= q
    ensures var u := Visited(t, s, d, q).tree;
            WellFormed(u) && Grown(t, u) && Grown(t0, u) && (Closed(t0, d) ==> SameOutside(t, u, d) && SameOutside(t0, u, d))
  {
    var u := Visited(t, s, d, q).tree;
    CopyOneGrows(t, t[q], Moved(s, d, q));
    GrownTwice(t0, t, u);
    if Closed(t0, d) {
      TargetGrown(t0, t, d);
      MovedBack(s, d, q);
      CopyInside(t, d, t[q], Moved(s, d, q));
      OutsideTwice(t0, t, u, d);
    }
  }

  /** A node that cannot be copied where no link is about finds something of another kind in its place. */
  lemma Met(t0: Tree, t: Tree, s: Path, d: Path, run: Run, todo: set<Path>, q: Path)
    requires Under(t0, t, s, d, run, todo) && q in todo
    ensures q in t && s <= q
    ensures var u := Visited(t, s, d, q).tree; WellFormed(u) && Grown(t0, u) && (Closed(t0, d) ==> SameOutside(t0, u, d))
    ensures Tame(t0, s, d) && LinkFree(t0, d) && !Visited(t, s, d, q).ok ==> !NoConflict(t0, s, d)
    ensures Clear(t0, s, d) && Welcome(t0, s, d) ==> Visited(t, s, d, q).ok
  {
    VisitGrows(t0, t, s, d, run, todo, q);
    if Clear(t0, s, d) && Welcome(t0, s, d) { WelcomeStep(t0, t, s, d, run.seen, todo, q); }
    if Tame(t0, s, d) && LinkFree(t0, d) { LaidStep(t0, t, s, d, run.seen, todo, q); }
  }

  lemma NewIsNoLink(t0: Tree, t: Tree, d: Path, x: Path)
    requires WellFormed(t0) && Grown(t0, t) && d !in t0 && d <= x
    ensures x in t ==> !t[x].Link?
  {
    NothingUnder(t0, d);
  }

  lemma ListedInside(t: Tree, s: Path, todo: set<Path>, q: Path)
    requires (forall x :: x in todo ==> x in t && s <= x) && q in todo
    ensures forall x :: x in (todo - {q}) + Children(t, q) ==> x in t && s <= x
  {
    forall x | x in Children(t, q) ensures s <= x { assert s <= q && q <= x; }
  }

  lemma AheadOn(t0: Tree, t: Tree, s: Path, d: Path, run: Run, todo: set<Path>, q: Path) returns (n: nat)
    requires Under(t0, t, s, d, run, todo) && q in todo && Deep(s, d)
    ensures q in t && s <= q && |d| > |s|
    ensures Visited(t, s, d, q).ok ==>
              Ahead(Visited(t, s, d, q).tree, s, d[|s|..], n, (todo - {q}) + Children(t, q))
  {
    var m := d[|s|..];
    DeepTail(s, d);
    if q == Spine(s, m, run.n) {
      n := run.n + 1;
      SpineMoved(s, m, run.n);
      MovedBack(s, d, q);
      NewIsNoLink(t0, t, d, Spine(s, m, |m| + run.n));
      AheadNext(t, s, m, run.n, todo);
    } else {
      n := run.n;
      VisitGrows(t0, t, s, d, run, todo, q);
      AheadKept(t, Visited(t, s, d, q).tree, s, m, n, todo, q, Children(t, q));
    }
  }

  lemma DeepTail(s: Path, d: Path)
    requires Deep(s, d)
    ensures |d| > |s| && s <= d && s + d[|s|..] == d && |d[|s|..]| > 1
  {
    assert |Parent(d)| > |s|;
  }

  lemma Onward(t0: Tree, t: Tree, s: Path, d: Path, run: Run, todo: set<Path>, q: Path) returns (next: Run)
    requires Under(t0, t, s, d, run, todo) && q in todo
    ensures q in t && s <= q && next.seen == run.seen + {q}
    ensures Visited(t, s, d, q).ok ==> Under(t0, Visited(t, s, d, q).tree, s, d, next, (todo - {q}) + Children(t, q))
  {
    var u := Visited(t, s, d, q).tree;
    next := Run(run.seen + {q}, 0);
    VisitGrows(t0, t, s, d, run, todo, q);
    ListedInside(t, s, todo, q);
    if Clear(t0, s, d) { DeliveringStep(t0, t, s, d, run.seen, todo, q); }
    if Tame(t0, s, d) {
      TidyStep(t0, t, u, s, d, run.seen, todo, q);
      if LinkFree(t0, d) { LaidStep(t0, t, s, d, run.seen, todo, q); }
    }
    if Deep(s, d) {
      var n := AheadOn(t0, t, s, d, run, todo, q);
      next := Run(run.seen + {q}, n);
    }
  }

  lemma OneLess(keys: set<Path>, seen: set<Path>, q: Path)
    requires q in keys && q !in seen
    ensures |keys - (seen + {q})| < |keys - seen|
  {
    assert keys - seen == (keys - (seen + {q})) + {q};
  }

  lemma FewerLeft(t0: Tree, t: Tree, s: Path, d: Path, run: Run, todo: set<Path>, q: Path)
    requires Under(t0, t, s, d, run, todo) && q in todo && (Tame(t0, s, d) || Clear(t0, s, d))
    ensures |t0.Keys - (run.seen + {q})| < |t0.Keys - run.seen|
  {
    assert Listed(t0, s, run.seen, todo);
    OneLess(t0.Keys, run.seen, q);
  }

  lemma Ended(t0: Tree, t: Tree, s: Path, d: Path, run: Run)
    requires Under(t0, t, s, d, run, {})
    ensures !Deep(s, d)
    ensures Tame(t0, s, d) && LinkFree(t0, d) ==> t == Overlay(t0, t0, s, d, Sources(t0, s))
    ensures Clear(t0, s, d) ==> Delivered(t0, t, Goods(t0, s, d, Sources(t0, s)))
  {
    if Tame(t0, s, d) && LinkFree(t0, d) { LaidWhole(t0, t, s, d, run.seen); }
    if Clear(t0, s, d) { DeliveredAll(t0, t, s, d, run.seen); }
  }

  // ----- The file system -----

  class FileSystem {
    var tree: Tree

    method MkdirAll(p: Path) returns (ok: bool)
      modifies this
      ensures ok == MadeDirs(old(tree), p).Some?
      ensures tree == if ok then MadeDirs(old(tree), p).value else old(tree)
    {
      var r := MadeDirs(tree, p);
      if r.None? { return false; }
      tree := r.value;
      return true;
    }

    /** A file written beside its place and renamed to it. */
    method RenameInto(p: Path, content: string) returns (ok: bool)
      modifies this
      ensures ok == Renamed(old(tree), p, content).Some?
      ensures tree == if ok then Renamed(old(tree), p, content).value else old(tree)
    {
      var r := Renamed(tree, p, content);
      if r.None? { return false; }
      tree := r.value;
      return true;
    }

    /** A file opened for writing, created or emptied. */
    method OpenTruncated(p: Path, content: string) returns (ok: bool)
      modifies this
      ensures ok == Truncated(old(tree), p, content).Some?
      ensures tree == if ok then Truncated(old(tree), p, content).value else old(tree)
    {
      var r := Truncated(tree, p, content);
      if r.None? { return false; }
      tree := r.value;
      return true;
    }

    method RemoveAll(p: Path)
      modifies this
      ensures tree == Removed(old(tree), p)
    {
      tree := Removed(tree, p);
    }

    method CopyNode(n: Node, x: Path) returns (ok: bool)
      modifies this
      ensures Step(ok, tree) == CopyOne(old(tree), n, x)
    {
      match n {
        case Dir =>
          ok := MkdirAll(x);
        case File(c) =>
          if x == [] { return false; }
          ok := MkdirAll(Parent(x));
          if !ok { return false; }
          ok := OpenTruncated(x, c);
        case _ =>
          ok := true;
      }
    }

    /**
     `disk` counts the nodes met before the disk fails; none when it never does, which is
     allowed only for a copy that is sure to end.
     */
    method CopyDirectory(s: Path, d: Path, disk: Option<nat>) returns (ok: bool)
      requires WellFormed(tree) && d != [] && DirAt(tree, Parent(d))
      requires s in tree ==> !(d <= s) && (s <= d ==> d !in tree)
      requires s in tree && disk == None ==> (Shallow(s, d) && Closed(tree, d)) || Clear(tree, s, d)
      modifies this
      ensures WellFormed(tree) && Grown(old(tree), tree)
      ensures Closed(old(tree), d) ==> SameOutside(old(tree), tree, d)
      ensures Shallow(s, d) && LinkFree(old(tree), d) && ok ==>
                s in old(tree) && tree == Overlay(old(tree), old(tree), s, d, Sources(old(tree), s))
      ensures Shallow(s, d) && LinkFree(old(tree), d) && disk == None && s in old(tree) && NoConflict(old(tree), s, d) ==> ok
      ensures Clear(old(tree), s, d) && ok ==> Delivered(old(tree), tree, Goods(old(tree), s, d, Sources(old(tree), s)))
      ensures Clear(old(tree), s, d) && Welcome(old(tree), s, d) && disk == None && s in old(tree) ==> ok
      ensures Deep(s, d) ==> !ok
      ensures s !in old(tree) ==> !ok && tree == old(tree)
    {
      if s !in tree { return false; }
      ghost var t0 := tree;
      ghost var run := Begun(t0, s, d);
      if LinkFree(t0, d) { LinkFreeIsClosed(t0, d); }
      var todo: set<Path> := {s};
      var count := 0;
      while todo != {}
        invariant Under(t0, tree, s, d, run, todo)
        invariant disk.Some? ==> count <= disk.value
        decreases if disk.Some? then disk.value - count else |t0.Keys - run.seen|
      {
        if disk.Some? && disk.value <= count { return false; }
        var q :| q in todo;
        var names := Children(tree, q);
        ghost var before := tree;
        Met(t0, tree, s, d, run, todo, q);
        ok := CopyNode(tree[q], Moved(s, d, q));
        if !ok { return false; }
        ghost var next := Onward(t0, before, s, d, run, todo, q);
        if disk.None? { FewerLeft(t0, before, s, d, run, todo, q); }
        run := next;
        todo := (todo - {q}) + names;
        count := count + 1;
      }
      Ended(t0, tree, s, d, run);
      return true;
    }
  }
}
