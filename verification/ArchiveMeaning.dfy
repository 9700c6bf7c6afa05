/**
 What the archiver accepts, packs and writes, said of names, paths and nodes themselves.
 */
module ArchiveMeaning {
  import opened Text
  import opened Paths
  import opened FileTree
  import opened Links
  import opened Copying
  import opened Archive

  // ----- Packing -----

  /** No refused path among those that are packed. */
  ghost predicate NoDots(v: Tree, order: seq<Path>) {
    forall p :: p in order && p in v && v[p] != Special ==> Nowhere(Join(p, "/"), "..")
  }

  /** The paths of a walk that get an entry. */
  function Visible(v: Tree, order: seq<Path>): seq<Path>
    requires forall p :: p in order ==> p in v
  {
    if order == [] then []
    else
      assert order[0] in order;
      (if v[order[0]] == Special then [] else [order[0]]) + Visible(v, order[1..])
  }

  /** The entry of a path: its components as the name, the kind of its node, and the content of a regular file. */
  predicate IsEntry(e: Entry, p: Path, n: Node) {
    && e.name == Join(p, "/")
    && (e.kind == Directory <==> n.Dir?) && (e.kind == RegularFile <==> n.File?) && (e.kind == LinkEntry <==> n.Link?)
    && e.content == if n.File? then n.content else ""
  }

  /** The entries of these paths, one for each. */
  predicate Describes(es: seq<Entry>, ps: seq<Path>, v: Tree) {
    |es| == |ps| && forall i :: 0 <= i < |es| ==> ps[i] in v && IsEntry(es[i], ps[i], v[ps[i]])
  }

  lemma DescribesCons(e: Entry, es: seq<Entry>, p: Path, ps: seq<Path>, v: Tree)
    requires Describes(es, ps, v) && p in v && IsEntry(e, p, v[p])
    ensures Describes([e] + es, [p] + ps, v)
  {
  }

  /** A directory is packed exactly when no packed path holds two dots; then its paths have their entries, in the order of the walk. */
  lemma {:induction false} PackedIff(v: Tree, order: seq<Path>)
    requires forall p :: p in order ==> p in v
    ensures Packed(v, order).Some? <==> NoDots(v, order)
    ensures Packed(v, order).Some? ==> Describes(Packed(v, order).value, Visible(v, order), v)
    decreases |order|
  {
    if order != [] {
      var p, rest := order[0], order[1..];
      assert forall q :: q in order <==> q == p || q in rest;
      PackedIff(v, rest);
      NowhereIsAbsent(Join(p, "/"), "..");
      if Packed(v, order).Some? && v[p] != Special {
        DescribesCons(EntryOf(p, v[p]), Packed(v, rest).value, p, Visible(v, rest), v);
      }
    }
  }

  lemma {:induction false} VisibleIs(v: Tree, order: seq<Path>)
    requires forall p :: p in order ==> p in v
    ensures forall p :: p in Visible(v, order) <==> p in order && v[p] != Special
  {
    if order != [] {
      assert forall q :: q in order <==> q == order[0] || q in order[1..];
      VisibleIs(v, order[1..]);
    }
  }

  lemma {:induction false} FilesIs(v: Tree, order: seq<Path>)
    requires (forall p :: p in order ==> p in v) && forall i, j :: 0 <= i < j < |order| ==> order[i] != order[j]
    ensures |Files(v, order)| == |set p | p in order && v[p].File?|
  {
    var all := set p | p in order && v[p].File?;
    if order == [] {
      assert all == {};
    } else {
      var p, rest := order[0], order[1..];
      assert forall q :: q in order <==> q == p || q in rest;
      assert forall i :: 0 <= i < |rest| ==> rest[i] == order[i + 1];
      FilesIs(v, rest);
      var later := set q | q in rest && v[q].File?;
      assert p !in rest;
      assert all == if v[p].File? then later + {p} else later;
    }
  }

  /** The count reported is the number of regular files below the top. */
  lemma FilesAreCounted(v: Tree, order: seq<Path>)
    requires WalkOrder(v, order)
    ensures |Files(v, order)| == |set p | p in v && p != [] && v[p].File?|
  {
    FilesIs(v, order);
    assert (set p | p in order && v[p].File?) == set p | p in v && p != [] && v[p].File?;
  }

  // ----- The place of an entry -----

  lemma {:induction false} JoinFreeIff(cs: seq<string>, c: char)
    requires c != '/'
    ensures Free(Join(cs, "/"), c) <==> AllFree(cs, c)
  {
    if |cs| > 1 {
      var later := Join(cs[1..], "/");
      JoinFreeIff(cs[1..], c);
      var s := cs[0] + "/" + later;
      if Free(s, c) {
        forall i | 0 <= i < |cs[0]| ensures cs[0][i] != c { assert s[i] == cs[0][i]; }
        forall i | 0 <= i < |later| ensures later[i] != c { assert s[|cs[0]| + 1 + i] == later[i]; }
      }
      assert forall i :: 0 < i < |cs| ==> cs[i] == cs[1..][i - 1];
      assert AllFree(cs, c) <==> Free(cs[0], c) && AllFree(cs[1..], c);
    }
  }

  lemma ByteIff(s: string, p: string)
    requires |p| == 1
    ensures Contains(s, p) <==> !Free(s, p[0])
  {
    NowhereIsAbsent(s, p);
    if Free(s, p[0]) {
      NoByte(s, p);
    } else {
      var i :| 0 <= i < |s| && s[i] == p[0];
      assert At(s, i, p);
    }
  }

  /** Where the components of a name lead from the destination. */
  function Reached(dest: string, n: string): seq<string> {
    Squeeze(Rooted(dest), Parts(n), Parts(dest))
  }

  /** The cleaned name keeps its components, and a zero byte shows in it when it is in one of them. */
  lemma CleanName(n: string, zero: string)
    requires |zero| == 1 && zero[0] == '\0'
    ensures "/" <= Clean(n) <==> Rooted(n)
    ensures !Rooted(n) ==> (Contains(Clean(n), zero) <==> !AllFree(Parts(n), '\0'))
  {
    CleanTwice(n);
    PrefixHead("/", Clean(n));
    var c := Clean(n);
    if Rooted(c) { assert c == "/" + c[1..]; }
    ByteIff(c, zero);
    if !Rooted(n) && Parts(n) != [] { JoinFreeIff(Parts(n), '\0'); }
  }

  /** The components of the joined path. */
  lemma JoinedParts(dest: string, n: string)
    requires !Rooted(n)
    ensures var t := Clean(dest) + "/" + Clean(n);
            Rooted(t) == Rooted(dest) && Parts(t) == Reached(dest, n)
  {
    CleanTwice(dest);
    CleanTwice(n);
    NonEmptyClean(dest);
    JoinParts(Clean(dest), Clean(n));
    PartsShape(n);
    if Parts(n) == [] {
      SplitWhole(".", '/');
      assert ["."][1..] == [];
    } else {
      SplitRender(false, Parts(n));
      assert [] + Parts(n) == Parts(n);
    }
  }

  /** The text test of the prefix is the test of the components. */
  lemma PrefixIff(rooted: bool, d: seq<string>, t: seq<string>)
    requires Climbs(rooted, d) && Climbs(rooted, t) && d != []
    ensures Render(rooted, d) + "/" <= Render(rooted, t) || Render(rooted, t) == Render(rooted, d) <==> d <= t
  {
    KeyOfRender(rooted, d);
    KeyOfRender(rooted, t);
    if Render(rooted, d) + "/" <= Render(rooted, t) { PrefixExtends(rooted, d, rooted, t); }
    if d <= t && d != t {
      assert t == d + t[|d|..];
      RenderExtends(rooted, d, t[|d|..]);
    }
  }

  /**
   An entry is accepted exactly when it is no link, its name is relative, no component of the
   cleaned name holds a zero byte, and these components lead from the destination to or below it.
   Backslashes count as slashes.
   */
  lemma ResolveIff(dest: string, e: Entry, n: string)
    requires Parts(dest) != []
    requires |n| == |e.name| && forall i :: 0 <= i < |n| ==> n[i] == if e.name[i] == '\\' then '/' else e.name[i]
    ensures Resolve(dest, e).Some? <==>
            e.kind != LinkEntry && !Rooted(n) && AllFree(Parts(n), '\0') && Parts(dest) <= Reached(dest, n)
    ensures Resolve(dest, e).Some? ==> Resolve(dest, e).value == [if Rooted(dest) then "/" else "."] + Reached(dest, n)
  {
    ReplaceByte(e.name, "\\", "/");
    assert ReplaceAll(e.name, "\\", "/") == n;
    CleanName(n, "\0");
    if !Rooted(n) {
      JoinedParts(dest, n);
      var t := Clean(dest) + "/" + Clean(n);
      CleanTwice(dest);
      CleanTwice(t);
      CleanTwice(Clean(t));
      PartsShape(dest);
      PartsShape(t);
      PrefixIff(Rooted(dest), Parts(dest), Parts(t));
    }
  }

  /** A harmless name, however it is spelled, is accepted and keeps its components. */
  lemma PlainIsAccepted(dest: string, e: Entry, n: string)
    requires Parts(dest) != [] && e.kind != LinkEntry
    requires |n| == |e.name| && forall i :: 0 <= i < |n| ==> n[i] == if e.name[i] == '\\' then '/' else e.name[i]
    requires !Rooted(n) && AllPlain(Parts(n)) && AllFree(Parts(n), '\0')
    ensures Resolve(dest, e) == Some([if Rooted(dest) then "/" else "."] + (Parts(dest) + Parts(n)))
  {
    ResolveIff(dest, e, n);
    SqueezePlain(Rooted(dest), Parts(n), Parts(dest));
  }

  // ----- Writing -----

  /** A file in an existing directory: new, or over what is no directory and no link; refused over those. */
  lemma FileExtracted(t: Tree, p: Path, q: Path, f: string, e: Entry)
    requires Real(t, p) == Some(q) && t[q] == Dir && e.kind == RegularFile
    ensures ExtractAt(t, p + [f], e) ==
            if q + [f] in t && (t[q + [f]].Dir? || t[q + [f]].Link?) then Step(false, t)
            else Step(true, t[q + [f] := File(e.content)])
  {
    assert Parent(p + [f]) == p && (p + [f])[|p + [f]| - 1] == f;
  }

  /** A directory that is there stays as it is; a file in its place is an error; other kinds are passed over. */
  lemma OtherExtracted(t: Tree, p: Path, e: Entry)
    requires e.kind != RegularFile
    ensures e.kind == Directory && Real(t, p).Some? ==> ExtractAt(t, p, e) == Step(t[Real(t, p).value] == Dir, t)
    ensures e.kind != Directory ==> ExtractAt(t, p, e) == Step(true, t)
  {
  }

  /** The first `k` entries are extracted, and the next one, if there is one, fails with the tree at the end. */
  ghost predicate StopsAt(t: Tree, dest: string, es: seq<Entry>, k: nat) {
    && k <= |es| && Extracted(t, dest, es[..k]).ok
    && (Extracted(t, dest, es).ok <==> k == |es|)
    && (k < |es| ==>
         var last := ExtractOne(Extracted(t, dest, es[..k]).tree, dest, es[k]);
         !last.ok && Extracted(t, dest, es).tree == last.tree)
  }

  lemma StopsLater(t: Tree, dest: string, e: Entry, es: seq<Entry>, k: nat)
    requires ExtractOne(t, dest, e).ok && StopsAt(ExtractOne(t, dest, e).tree, dest, es, k)
    ensures StopsAt(t, dest, [e] + es, k + 1)
  {
    var all := [e] + es;
    assert all[..k + 1] == [e] + es[..k];
    ExtractCons(t, dest, e, es[..k]);
    ExtractCons(t, dest, e, es);
    if k < |es| { assert all[k + 1] == es[k]; }
  }

  /** Extraction goes through the entries in order and stops at the first that fails, with what was written until then. */
  lemma {:induction false} ExtractedUpTo(t: Tree, dest: string, es: seq<Entry>) returns (k: nat)
    ensures StopsAt(t, dest, es, k)
    decreases |es|
  {
    if es == [] {
      k := 0;
    } else if ExtractOne(t, dest, es[0]).ok {
      var j := ExtractedUpTo(ExtractOne(t, dest, es[0]).tree, dest, es[1..]);
      StopsLater(t, dest, es[0], es[1..], j);
      assert [es[0]] + es[1..] == es;
      k := j + 1;
    } else {
      k := 0;
      assert es[..0] == [];
    }
  }
}
