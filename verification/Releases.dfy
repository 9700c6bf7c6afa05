/**
 Release directories, the `current` link and the pruning after each deployment.
 */
module Releases {
  import opened Text

  // ----- Release names -----

  /** Byte-wise order, the order of a sorted directory listing. */
  predicate Before(a: string, b: string)
    decreases |a|
  {
    b != "" && (a == "" || a[0] < b[0] || (a[0] == b[0] && Before(a[1..], b[1..])))
  }

  lemma {:induction false} BeforeTotal(a: string, b: string)
    ensures Before(a, b) || Before(b, a) || a == b
    ensures !(Before(a, b) && Before(b, a)) && !Before(a, a)
    decreases |a|
  {
    if a != "" && b != "" {
      BeforeTotal(a[1..], b[1..]);
      BeforeIrreflexive(a[1..]);
      assert a == [a[0]] + a[1..] && b == [b[0]] + b[1..];
    } else {
      BeforeIrreflexive(a);
    }
  }

  lemma {:induction false} BeforeIrreflexive(a: string)
    ensures !Before(a, a)
  {
    if a != "" { BeforeIrreflexive(a[1..]); }
  }

  lemma {:induction false} BeforeTransitive(a: string, b: string, c: string)
    requires Before(a, b) && Before(b, c)
    ensures Before(a, c)
    decreases |a|
  {
    if a != "" && a[0] == b[0] && b[0] == c[0] { BeforeTransitive(a[1..], b[1..], c[1..]); }
  }

  /** The leading digit's weight. */
  function Power(n: nat): nat {
    if n == 0 then 1 else 10 * Power(n - 1)
  }

  lemma {:induction false} NumberFromFront(s: string)
    requires AllDigits(s) && s != ""
    ensures NumberOf(s) == (s[0] as int - '0' as int) * Power(|s| - 1) + NumberOf(s[1..]) && NumberOf(s) < Power(|s|)
    decreases |s|
  {
    var n := |s|;
    if n == 1 {
      assert s[..0] == "" && s[1..] == "";
    } else {
      var init := s[..n - 1];
      NumberFromFront(init);
      assert s[1..][..n - 2] == init[1..] && s[1..][n - 2] == s[n - 1];
      Shift(init[0] as int - '0' as int, Power(n - 2), NumberOf(init[1..]), s[n - 1] as int - '0' as int);
    }
  }

  lemma Shift(d: int, p: int, x: int, e: int)
    ensures 10 * (d * p + x) + e == d * (10 * p) + (10 * x + e)
  {
  }

  /** For digit strings of one length the listing order is the numeric, hence chronological, order. */
  lemma {:induction false} ListingIsChronological(a: string, b: string)
    requires AllDigits(a) && AllDigits(b) && |a| == |b|
    ensures Before(a, b) <==> NumberOf(a) < NumberOf(b)
    decreases |a|
  {
    if a != "" {
      NumberFromFront(a);
      NumberFromFront(b);
      ListingIsChronological(a[1..], b[1..]);
      var x, y, p := a[0] as int - '0' as int, b[0] as int - '0' as int, Power(|a| - 1);
      if |a| > 1 {
        NumberFromFront(a[1..]);
        NumberFromFront(b[1..]);
      }
      LeadingDigit(x, y, p, NumberOf(a[1..]), NumberOf(b[1..]));
      if a[0] == b[0] && NumberOf(a[1..]) == NumberOf(b[1..]) { BeforeTotal(a[1..], b[1..]); }
    }
  }

  lemma LeadingDigit(x: int, y: int, p: int, u: int, v: int)
    requires 0 <= u < p && 0 <= v < p
    ensures x * p + u < y * p + v <==> x < y || (x == y && u < v)
  {
    if x < y {
      assert (x + 1) * p <= y * p;
    } else if y < x {
      assert (y + 1) * p <= x * p;
    }
  }

  // ----- Pruning -----

  /** The releases that sort after one. */
  function Later(dirs: set<string>, d: string): set<string> {
    set e | e in dirs && Before(d, e)
  }

  /** The releases a pruning keeps: those with fewer than `keep` after them. */
  function Newest(dirs: set<string>, keep: nat): set<string> {
    set d | d in dirs && |Later(dirs, d)| < keep
  }

  predicate Ascending(s: seq<string>) {
    forall i, j :: 0 <= i < j < |s| ==> Before(s[i], s[j])
  }

  function Elements(s: seq<string>): set<string> {
    set d | d in s
  }

  /** A name put in its place in a sorted listing. */
  function Placed(s: seq<string>, d: string): seq<string> {
    if s == [] || Before(d, s[0]) then [d] + s else [s[0]] + Placed(s[1..], d)
  }

  lemma {:induction false} PlacedIs(s: seq<string>, d: string)
    requires Ascending(s) && d !in s
    ensures var r := Placed(s, d); Ascending(r) && Elements(r) == Elements(s) + {d} && |r| == |s| + 1
    decreases |s|
  {
    if s != [] {
      BeforeTotal(d, s[0]);
      if Before(d, s[0]) {
        forall i | 0 < i < |s| ensures Before(d, s[i]) { BeforeTransitive(d, s[0], s[i]); }
      } else {
        var q := Placed(s[1..], d);
        PlacedIs(s[1..], d);
        assert Elements(s) == {s[0]} + Elements(s[1..]);
        forall i | 0 <= i < |q| ensures Before(s[0], q[i]) {
          assert q[i] in Elements(s[1..]) + {d};
          if q[i] in s[1..] {
            var k :| 0 <= k < |s[1..]| && s[1..][k] == q[i];
            assert s[k + 1] == q[i];
          }
        }
      }
    }
  }

  /** The sorted listing of the release directories. */
  method Listing(dirs: set<string>) returns (s: seq<string>)
    ensures Ascending(s) && Elements(s) == dirs && |s| == |dirs|
  {
    s := [];
    var todo := dirs;
    while todo != {}
      invariant Ascending(s) && todo <= dirs && Elements(s) == dirs - todo && |s| == |dirs| - |todo|
      decreases todo
    {
      var d :| d in todo;
      assert d !in Elements(s);
      PlacedIs(s, d);
      s := Placed(s, d);
      todo := todo - {d};
    }
  }

  lemma {:induction false} SizeOfAscending(s: seq<string>)
    requires Ascending(s)
    ensures |Elements(s)| == |s|
  {
    if s != [] {
      SizeOfAscending(s[1..]);
      forall i | 0 <= i < |s[1..]| ensures s[1..][i] != s[0] {
        assert Before(s[0], s[i + 1]);
        BeforeIrreflexive(s[0]);
      }
      assert Elements(s) == {s[0]} + Elements(s[1..]);
    }
  }

  /** In a sorted listing a name is followed by exactly the later ones. */
  lemma LaterInListing(s: seq<string>, i: nat)
    requires Ascending(s) && i < |s|
    ensures |Later(Elements(s), s[i])| == |s| - 1 - i
  {
    var tail := s[i + 1..];
    SizeOfAscending(tail);
    forall e ensures e in Later(Elements(s), s[i]) <==> e in Elements(tail) {
      if e in Elements(s) && Before(s[i], e) {
        var k :| 0 <= k < |s| && s[k] == e;
        BeforeTotal(s[i], e);
        assert k > i;
        assert tail[k - i - 1] == e;
      }
      if e in tail {
        var k :| 0 <= k < |tail| && tail[k] == e;
        assert s[i + 1 + k] == e;
      }
    }
    assert Later(Elements(s), s[i]) == Elements(tail);
  }

  /** Dropping all but the last `keep` of the sorted listing keeps the newest. */
  lemma LastAreNewest(s: seq<string>, keep: nat)
    requires Ascending(s) && keep <= |s|
    ensures Newest(Elements(s), keep) == Elements(s[|s| - keep..]) && |Newest(Elements(s), keep)| == keep
  {
    var tail := s[|s| - keep..];
    SizeOfAscending(tail);
    forall d ensures d in Newest(Elements(s), keep) <==> d in Elements(tail) {
      if d in s {
        var i :| 0 <= i < |s| && s[i] == d;
        LaterInListing(s, i);
        if i >= |s| - keep { assert tail[i - (|s| - keep)] == d; }
        if d in tail {
          var k :| 0 <= k < |tail| && tail[k] == d;
          assert s[|s| - keep + k] == s[i];
          LaterInListing(s, |s| - keep + k);
        }
      }
    }
    assert Newest(Elements(s), keep) == Elements(tail);
  }

  lemma AllAreNewest(s: seq<string>, keep: nat)
    requires Ascending(s) && |s| <= keep
    ensures Newest(Elements(s), keep) == Elements(s)
  {
    forall d | d in s ensures |Later(Elements(s), d)| < keep {
      var i :| 0 <= i < |s| && s[i] == d;
      LaterInListing(s, i);
    }
  }

  // ----- Deployments -----

  /** How a deployment goes. */
  datatype Fate = CloneFails | BuildFails | SwitchFails | Succeeds

  const DEFAULT_KEEP := 5

  function Keep(configured: int): nat {
    if configured <= 0 then DEFAULT_KEEP else configured
  }

  /** The release directories and the target of the `current` link. */
  datatype Site = Site(releases: set<string>, current: Option<string>)

  /** A failed deployment leaves its directory behind. */
  function Deployed(s: Site, id: string, fate: Fate, keep: int): Site {
    if fate != Succeeds then s.(releases := s.releases + {id})
    else Site(Newest(s.releases + {id}, Keep(keep)), Some(id))
  }

  class Manager {
    var releases: set<string>
    var current: Option<string>

    ghost function View(): Site
      reads this
    {
      Site(releases, current)
    }

    method RemoveAll(toDelete: seq<string>)
      modifies this`releases
      ensures releases == old(releases) - Elements(toDelete)
    {
      var i := 0;
      while i < |toDelete|
        invariant 0 <= i <= |toDelete|
        invariant releases == old(releases) - Elements(toDelete[..i])
      {
        assert toDelete[..i + 1] == toDelete[..i] + [toDelete[i]];
        releases := releases - {toDelete[i]};
        i := i + 1;
      }
      assert toDelete[..|toDelete|] == toDelete;
    }

    method PruneReleases(keepCount: nat)
      modifies this`releases
      ensures releases == Newest(old(releases), keepCount)
    {
      var dirs := Listing(releases);
      PruneResult(releases, dirs, keepCount);
      if |dirs| <= keepCount { return; }
      RemoveAll(dirs[..|dirs| - keepCount]);
    }

    method DeployRelease(id: string, fate: Fate, keepReleases: int) returns (ok: bool)
      modifies this
      ensures ok == (fate == Succeeds)
      ensures !ok ==> releases == old(releases) + {id} && current == old(current)
      ensures ok ==> current == Some(id) && releases == Newest(old(releases) + {id}, if keepReleases > 0 then keepReleases else 5)
      ensures View() == Step(old(View()), Deploy(id, fate, keepReleases))
    {
      releases := releases + {id};
      if fate != Succeeds { return false; }
      current := Some(id);
      var keep := if keepReleases <= 0 then DEFAULT_KEEP else keepReleases;
      PruneReleases(keep);
      return true;
    }

    /** `linkOk` tells whether the link could be made and renamed. */
    method RollbackRelease(id: string, linkOk: bool) returns (ok: bool)
      modifies this`current
      ensures ok == (id in releases && linkOk)
      ensures current == if ok then Some(id) else old(current)
      ensures View() == Step(old(View()), Rollback(id, linkOk))
    {
      if id !in releases || !linkOk { return false; }
      current := Some(id);
      return true;
    }
  }

  /** What is left once the front of the sorted listing is deleted. */
  lemma PruneResult(all: set<string>, dirs: seq<string>, keep: nat)
    requires Ascending(dirs) && Elements(dirs) == all
    ensures |dirs| <= keep ==> Newest(all, keep) == all
    ensures |dirs| > keep ==> all - Elements(dirs[..|dirs| - keep]) == Newest(all, keep)
  {
    if |dirs| <= keep {
      AllAreNewest(dirs, keep);
    } else {
      LastAreNewest(dirs, keep);
      FrontAndBack(dirs, |dirs| - keep);
    }
  }

  lemma FrontAndBack(s: seq<string>, n: nat)
    requires Ascending(s) && n <= |s|
    ensures Elements(s) - Elements(s[..n]) == Elements(s[n..])
  {
    assert forall i :: 0 <= i < n ==> s[..n][i] == s[i];
    forall d ensures d in Elements(s) - Elements(s[..n]) <==> d in Elements(s[n..]) {
      if d in s && d !in s[..n] {
        var i :| 0 <= i < |s| && s[i] == d;
        assert s[n..][i - n] == d;
      }
      if d in s[n..] {
        var k :| 0 <= k < |s[n..]| && s[n..][k] == d;
        assert s[n + k] == d;
        forall i | 0 <= i < n ensures s[..n][i] != d {
          assert Before(s[i], s[n + k]);
          BeforeIrreflexive(d);
        }
      }
    }
  }

  // ----- Runs -----

  datatype Event = Deploy(id: string, fate: Fate, keep: int) | Rollback(id: string, linkOk: bool)

  function Step(s: Site, e: Event): Site {
    match e
    case Deploy(id, fate, keep) => Deployed(s, id, fate, keep)
    case Rollback(id, linkOk) => if id in s.releases && linkOk then s.(current := Some(id)) else s
  }

  function RunAll(s: Site, es: seq<Event>): Site
    decreases |es|
  {
    if es == [] then s else RunAll(Step(s, es[0]), es[1..])
  }

  /** The link is absent or names a release that exists. */
  predicate Live(s: Site) {
    s.current.Some? ==> s.current.value in s.releases
  }

  /** No release sorts after the given name. */
  predicate UpTo(s: Site, last: string) {
    forall d :: d in s.releases ==> !Before(last, d)
  }

  /** Ids never go back. */
  predicate Forward(es: seq<Event>, last: string)
    decreases |es|
  {
    es == [] || (if es[0].Deploy? then !Before(es[0].id, last) && Forward(es[1..], es[0].id) else Forward(es[1..], last))
  }

  /** The link of a successful deployment survives its own pruning exactly when fewer than `keep` releases sort after it. */
  lemma DeployStaysLiveIff(s: Site, id: string, keep: int)
    ensures Live(Deployed(s, id, Succeeds, keep)) <==> |Later(s.releases, id)| < Keep(keep)
  {
    BeforeIrreflexive(id);
    assert Later(s.releases + {id}, id) == Later(s.releases, id);
  }

  /** A successful deployment leaves exactly the newest releases, as many as there are or are to be kept. */
  lemma DeployKeepsNewest(s: Site, id: string, keep: int)
    ensures var r := Deployed(s, id, Succeeds, keep).releases;
            |r| == Min(|s.releases + {id}|, Keep(keep)) &&
            forall d, e :: d in r && e in s.releases + {id} && e !in r ==> Before(e, d)
  {
    var all := s.releases + {id};
    var l := SortedListing(all);
    if |l| <= Keep(keep) {
      AllAreNewest(l, Keep(keep));
    } else {
      LastAreNewest(l, Keep(keep));
    }
    var r := Newest(all, Keep(keep));
    forall d, e | d in r && e in all && e !in r ensures Before(e, d) {
      var i :| 0 <= i < |l| && l[i] == d;
      var k :| 0 <= k < |l| && l[k] == e;
      LaterInListing(l, i);
      LaterInListing(l, k);
      assert k < i;
    }
  }

  lemma {:induction false} SortedListing(dirs: set<string>) returns (s: seq<string>)
    ensures Ascending(s) && Elements(s) == dirs && |s| == |dirs|
    decreases dirs
  {
    if dirs == {} {
      s := [];
    } else {
      var d :| d in dirs;
      var r := SortedListing(dirs - {d});
      assert d !in Elements(r);
      PlacedIs(r, d);
      s := Placed(r, d);
    }
  }

  lemma StepIsLive(s: Site, e: Event, last: string)
    requires Live(s) && UpTo(s, last) && Forward([e], last)
    ensures Live(Step(s, e)) && UpTo(Step(s, e), if e.Deploy? then e.id else last)
  {
    if e.Deploy? {
      forall d | d in s.releases ensures !Before(e.id, d) {
        BeforeTotal(e.id, last);
        if Before(e.id, d) {
          BeforeTotal(last, d);
          if last != e.id { BeforeTransitive(last, e.id, d); }
        }
      }
      BeforeIrreflexive(e.id);
      if e.fate == Succeeds {
        assert Later(s.releases, e.id) == {};
        DeployStaysLiveIff(s, e.id, e.keep);
      }
    }
  }

  /** Over every run with ids that never go back, the link never dangles. */
  lemma {:induction false} AlwaysLive(s: Site, es: seq<Event>, last: string)
    requires Live(s) && UpTo(s, last) && Forward(es, last)
    ensures Live(RunAll(s, es))
    decreases |es|
  {
    if es != [] {
      assert [es[0]][1..] == [];
      StepIsLive(s, es[0], last);
      AlwaysLive(Step(s, es[0]), es[1..], if es[0].Deploy? then es[0].id else last);
    }
  }
}
