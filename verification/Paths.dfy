/**
 Slash-separated paths: lexical cleaning and joining, and what they do to the components.
 */
module Paths {
  import opened Text

  /** An ordinary path component. */
  predicate Plain(c: string) {
    c != "" && c != "." && c != ".." && Free(c, '/')
  }

  predicate AllPlain(cs: seq<string>) {
    forall i :: 0 <= i < |cs| ==> Plain(cs[i])
  }

  /** Components taken in turn: empty and `.` are dropped, `..` takes back the last ordinary one. */
  function Squeeze(rooted: bool, parts: seq<string>, acc: seq<string>): seq<string>
    decreases |parts|
  {
    if parts == [] then acc
    else
      var p := parts[0];
      var next :=
        if p == "" || p == "." then acc
        else if p != ".." then acc + [p]
        else if acc != [] && acc[|acc| - 1] != ".." then acc[..|acc| - 1]
        else if rooted then acc
        else acc + [".."];
      Squeeze(rooted, parts[1..], next)
  }

  predicate Rooted(s: string) {
    s != "" && s[0] == '/'
  }

  /** The components of the cleaned path. */
  function Parts(s: string): seq<string> {
    Squeeze(Rooted(s), SplitOn(s, '/'), [])
  }

  /** Lexical cleaning. */
  function Clean(s: string): string {
    if Rooted(s) then "/" + Join(Parts(s), "/")
    else if Parts(s) == [] then "."
    else Join(Parts(s), "/")
  }

  function JoinPath(dir: string, name: string): string {
    Clean(dir + "/" + name)
  }

  // ----- The shape of a cleaned path -----

  /** Some steps up, then ordinary components; no steps up from the root. */
  ghost predicate Climbs(rooted: bool, cs: seq<string>) {
    exists k :: ClimbsBy(rooted, cs, k)
  }

  predicate ClimbsBy(rooted: bool, cs: seq<string>, k: int) {
    0 <= k <= |cs| && (rooted ==> k == 0) && (forall i :: 0 <= i < k ==> cs[i] == "..") && AllPlain(cs[k..])
  }

  lemma PushPlain(rooted: bool, acc: seq<string>, k: nat, p: string)
    requires ClimbsBy(rooted, acc, k) && Plain(p)
    ensures ClimbsBy(rooted, acc + [p], k)
  {
    assert (acc + [p])[k..] == acc[k..] + [p];
  }

  lemma PopPlain(rooted: bool, acc: seq<string>, k: nat)
    requires ClimbsBy(rooted, acc, k) && acc != [] && acc[|acc| - 1] != ".."
    ensures ClimbsBy(rooted, acc[..|acc| - 1], k)
  {
    assert k < |acc|;
    var b := acc[..|acc| - 1];
    assert b[k..] == acc[k..][..|acc| - 1 - k];
  }

  lemma PlainFrom(cs: seq<string>, k: nat)
    requires k <= |cs| && AllPlain(cs[k..])
    ensures forall i :: k <= i < |cs| ==> Plain(cs[i])
  {
    assert forall i :: k <= i < |cs| ==> cs[i] == cs[k..][i - k];
  }

  lemma PushUp(acc: seq<string>, k: nat)
    requires ClimbsBy(false, acc, k) && (acc == [] || acc[|acc| - 1] == "..")
    ensures ClimbsBy(false, acc + [".."], k + 1)
  {
    PlainFrom(acc, k);
    assert k == |acc|;
    assert (acc + [".."])[k + 1..] == [];
  }

  lemma {:induction false} SqueezeShape(rooted: bool, parts: seq<string>, acc: seq<string>, k: nat)
    requires AllFree(parts, '/') && ClimbsBy(rooted, acc, k)
    ensures Climbs(rooted, Squeeze(rooted, parts, acc))
    decreases |parts|
  {
    if parts != [] {
      var p := parts[0];
      assert Free(p, '/') && AllFree(parts[1..], '/');
      if p == "" || p == "." {
        SqueezeShape(rooted, parts[1..], acc, k);
      } else if p != ".." {
        PushPlain(rooted, acc, k, p);
        SqueezeShape(rooted, parts[1..], acc + [p], k);
      } else if acc != [] && acc[|acc| - 1] != ".." {
        PopPlain(rooted, acc, k);
        SqueezeShape(rooted, parts[1..], acc[..|acc| - 1], k);
      } else if rooted {
        SqueezeShape(rooted, parts[1..], acc, k);
      } else {
        PushUp(acc, k);
        SqueezeShape(rooted, parts[1..], acc + [".."], k + 1);
      }
    }
  }

  /** A cleaned path climbs first and then only descends; an absolute one never climbs. */
  lemma PartsShape(s: string)
    ensures Climbs(Rooted(s), Parts(s))
  {
    JoinSplit(s, '/');
    assert ClimbsBy(Rooted(s), [], 0);
    SqueezeShape(Rooted(s), SplitOn(s, '/'), [], 0);
  }

  lemma {:induction false} SqueezePlain(rooted: bool, parts: seq<string>, acc: seq<string>)
    requires AllPlain(parts)
    ensures Squeeze(rooted, parts, acc) == acc + parts
    decreases |parts|
  {
    if parts == [] {
      assert acc + parts == acc;
    } else {
      assert Plain(parts[0]);
      SqueezePlain(rooted, parts[1..], acc + [parts[0]]);
      assert acc + [parts[0]] + parts[1..] == acc + parts;
    }
  }

  lemma {:induction false} SqueezeAppend(rooted: bool, a: seq<string>, b: seq<string>, acc: seq<string>)
    ensures Squeeze(rooted, a + b, acc) == Squeeze(rooted, b, Squeeze(rooted, a, acc))
    decreases |a|
  {
    if a == [] {
      assert a + b == b;
    } else {
      var p := a[0];
      var next :=
        if p == "" || p == "." then acc
        else if p != ".." then acc + [p]
        else if acc != [] && acc[|acc| - 1] != ".." then acc[..|acc| - 1]
        else if rooted then acc
        else acc + [".."];
      assert (a + b)[0] == p && (a + b)[1..] == a[1..] + b;
      SqueezeAppend(rooted, a[1..], b, next);
    }
  }

  // ----- Joining -----

  /** Splitting at every slash a text that continues after one. */
  lemma {:induction false} SplitSlash(a: string, c: char, b: string)
    ensures SplitOn(a + ([c] + b), c) == SplitOn(a, c) + SplitOn(b, c)
  {
    var s := a + ([c] + b);
    if a == "" {
      assert s == [c] + b && s[1..] == b;
    } else {
      assert s[0] == a[0] && s[1..] == a[1..] + ([c] + b);
      SplitSlash(a[1..], c, b);
      var r, q := SplitOn(a[1..], c), SplitOn(b, c);
      if a[0] == c {
        assert [""] + (r + q) == [""] + r + q;
      } else {
        HeadGrows([a[0]] + r[0], r, q);
      }
    }
  }

  lemma HeadGrows(h: string, r: seq<string>, q: seq<string>)
    requires r != []
    ensures (r + q)[0] == r[0] && [h] + (r + q)[1..] == ([h] + r[1..]) + q
  {
    assert (r + q)[1..] == r[1..] + q;
  }

  /** The components of a joined path: those of the directory, then those of the name applied to them. */
  lemma JoinParts(dir: string, name: string)
    requires dir != ""
    ensures Rooted(dir + "/" + name) == Rooted(dir)
    ensures Parts(dir + "/" + name) == Squeeze(Rooted(dir), SplitOn(name, '/'), Parts(dir))
  {
    var s := dir + "/" + name;
    assert s == dir + (['/'] + name) && s[0] == dir[0];
    SplitSlash(dir, '/', name);
    SqueezeAppend(Rooted(dir), SplitOn(dir, '/'), SplitOn(name, '/'), []);
  }

  /** The text of a path with given components. */
  function Render(rooted: bool, cs: seq<string>): string {
    if rooted then "/" + Join(cs, "/")
    else if cs == [] then "."
    else Join(cs, "/")
  }

  lemma {:induction false} JoinSnoc(cs: seq<string>, more: seq<string>, sep: string)
    requires cs != [] && more != []
    ensures Join(cs + more, sep) == Join(cs, sep) + sep + Join(more, sep)
    decreases |cs|
  {
    if |cs| == 1 {
      assert cs + more == [cs[0]] + more && ([cs[0]] + more)[1..] == more;
    } else {
      JoinSnoc(cs[1..], more, sep);
      assert (cs + more)[1..] == cs[1..] + more && (cs + more)[0] == cs[0];
      FourPieces(cs[0], sep, Join(cs[1..], sep), Join(more, sep));
    }
  }

  lemma FourPieces(a: string, s: string, b: string, c: string)
    ensures a + s + (b + s + c) == (a + s + b) + s + c
  {
  }

  /** Joining ordinary components to a proper directory extends its text by a slash and the name. */
  lemma RenderExtends(rooted: bool, cs: seq<string>, more: seq<string>)
    requires cs != [] && more != []
    ensures Render(rooted, cs + more) == Render(rooted, cs) + "/" + Join(more, "/")
  {
    JoinSnoc(cs, more, "/");
    if rooted {
      assert "/" + (Join(cs, "/") + "/" + Join(more, "/")) == ("/" + Join(cs, "/")) + "/" + Join(more, "/");
    }
  }

  lemma {:induction false} JoinStart(cs: seq<string>)
    requires cs != [] && cs[0] != ""
    ensures Join(cs, "/") != "" && Join(cs, "/")[0] == cs[0][0]
  {
  }

  /** A clean path is read back: cleaning it changes nothing. */
  lemma CleanFixed(rooted: bool, cs: seq<string>)
    requires Climbs(rooted, cs) && (rooted || cs != [])
    ensures Rooted(Render(rooted, cs)) == rooted && Parts(Render(rooted, cs)) == cs
  {
    var k :| ClimbsBy(rooted, cs, k);
    assert forall i :: k <= i < |cs| ==> cs[i] == cs[k..][i - k];
    assert AllFree(cs, '/');
    var s := Render(rooted, cs);
    SqueezeClimb(rooted, cs, k);
    if rooted {
      if cs == [] {
        assert s == "/" && SplitOn("/", '/') == ["", ""];
        assert ["", ""][1..] == [""] && [""][1..] == [];
      } else {
        assert s == "" + (['/'] + Join(cs, "/"));
        SplitPiece("", '/', Join(cs, "/"));
        SplitJoin(cs, '/');
        assert ([""] + cs)[1..] == cs;
      }
    } else {
      SplitJoin(cs, '/');
      JoinStart(cs);
      assert cs[0] == ".." || Plain(cs[0]);
    }
  }

  lemma {:induction false} SqueezeUps(ups: seq<string>, acc: seq<string>)
    requires (forall i :: 0 <= i < |ups| ==> ups[i] == "..") && (forall i :: 0 <= i < |acc| ==> acc[i] == "..")
    ensures Squeeze(false, ups, acc) == acc + ups
    decreases |ups|
  {
    if ups == [] {
      assert acc + ups == acc;
    } else {
      SqueezeUps(ups[1..], acc + [".."]);
      assert acc + [".."] + ups[1..] == acc + ups;
    }
  }

  lemma SqueezeClimb(rooted: bool, cs: seq<string>, k: nat)
    requires ClimbsBy(rooted, cs, k)
    ensures Squeeze(rooted, cs, []) == cs
  {
    assert cs == cs[..k] + cs[k..];
    SqueezeAppend(rooted, cs[..k], cs[k..], []);
    if k == 0 {
      assert cs[..0] == [];
    } else {
      SqueezeUps(cs[..k], []);
      assert [] + cs[..k] == cs[..k];
    }
    SqueezePlain(rooted, cs[k..], Squeeze(rooted, cs[..k], []));
  }

  /** Joining an ordinary relative name to a clean directory with components. */
  lemma JoinPlain(dir: string, cs: seq<string>)
    requires dir == Clean(dir) && Parts(dir) != [] && cs != [] && AllPlain(cs)
    ensures JoinPath(dir, Join(cs, "/")) == dir + "/" + Join(cs, "/")
    ensures Parts(dir + "/" + Join(cs, "/")) == Parts(dir) + cs
  {
    assert dir != "" by { PartsShape(dir); NonEmptyClean(dir); }
    JoinParts(dir, Join(cs, "/"));
    assert AllFree(cs, '/');
    SplitJoin(cs, '/');
    SqueezePlain(Rooted(dir), cs, Parts(dir));
    RenderExtends(Rooted(dir), Parts(dir), cs);
  }

  lemma NonEmptyClean(s: string)
    ensures Clean(s) != ""
  {
    PartsShape(s);
    var cs := Parts(s);
    var k :| ClimbsBy(Rooted(s), cs, k);
    if cs != [] {
      assert k == 0 ==> cs[k..][0] == cs[0];
      JoinStart(cs);
    }
  }

  // ----- One component after the other -----

  /** A text without slashes: nothing for the empty one and for `.`, otherwise itself. */
  lemma FirstComponent(c: string)
    requires Free(c, '/')
    ensures Parts(c) == (if c == "" || c == "." then [] else [c]) && Parts("/") == []
  {
    SplitWhole(c, '/');
    assert [c][1..] == [] && [] + [c] == [c];
    assert !Rooted(c);
    if c == ".." {
      SqueezeUps([c], []);
    } else if c != "" && c != "." {
      SqueezePlain(false, [c], []);
    }
    SplitPiece("", '/', "");
    SplitWhole("", '/');
    assert "/" == "" + (['/'] + "") && SplitOn("/", '/') == ["", ""] && ["", ""][1..] == [""];
  }

  /** One more component: an ordinary one goes deeper, `..` goes back, up from the root stays there. */
  lemma NextComponent(s: string, c: string)
    requires s != "" && Free(c, '/')
    ensures Parts(s + "/" + c) ==
            if c == "" || c == "." then Parts(s)
            else if c != ".." then Parts(s) + [c]
            else if Parts(s) == [] then (if s[0] == '/' then [] else [".."])
            else if Parts(s)[|Parts(s)| - 1] == ".." then Parts(s) + [".."]
            else Parts(s)[..|Parts(s)| - 1]
  {
    JoinParts(s, c);
    SplitWhole(c, '/');
    assert [c][1..] == [] && [] + [".."] == [".."];
    PartsShape(s);
    var k :| ClimbsBy(Rooted(s), Parts(s), k);
    if k == |Parts(s)| > 0 { assert Parts(s)[k - 1] == ".."; }
    if k < |Parts(s)| { PlainFrom(Parts(s), k); }
  }
}
