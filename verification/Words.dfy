/**
 Texts as words set apart by blanks.
 */
module Words {
  import opened Text

  predicate IsWord(w: string) {
    w != "" && forall i :: 0 <= i < |w| ==> !IsSpace(w[i])
  }

  predicate AllWords(ws: seq<string>) {
    forall i :: 0 <= i < |ws| ==> IsWord(ws[i])
  }

  lemma {:induction false} WordEndApart(a: string, b: string)
    requires b == "" || IsSpace(b[0])
    ensures WordEnd(a + b) == WordEnd(a)
  {
    if a == "" {
      assert a + b == b;
    } else {
      assert (a + b)[0] == a[0] && (a + b)[1..] == a[1..] + b;
      if !IsSpace(a[0]) { WordEndApart(a[1..], b); }
    }
  }

  /** Fields of two texts set apart by a blank. */
  lemma {:induction false} FieldsApart(a: string, b: string)
    requires b == "" || IsSpace(b[0])
    ensures Fields(a + b) == Fields(a) + Fields(b)
    decreases |a|
  {
    var s := a + b;
    if a == "" {
      assert s == b && [] + Fields(b) == Fields(b);
    } else if IsSpace(a[0]) {
      assert s[0] == a[0] && s[1..] == a[1..] + b;
      FieldsApart(a[1..], b);
    } else {
      var n := WordEnd(a);
      WordEndApart(a, b);
      assert s[0] == a[0] && s[..n] == a[..n] && s[n..] == a[n..] + b;
      FieldsApart(a[n..], b);
      assert [a[..n]] + (Fields(a[n..]) + Fields(b)) == [a[..n]] + Fields(a[n..]) + Fields(b);
    }
  }

  lemma {:induction false} FieldsBlank(p: string)
    requires Blank(p)
    ensures Fields(p) == []
  {
    if p != "" { FieldsBlank(p[1..]); }
  }

  lemma {:induction false} FieldsTrimLeft(s: string)
    ensures Fields(TrimLeft(s)) == Fields(s)
  {
    if s != "" && IsSpace(s[0]) { FieldsTrimLeft(s[1..]); }
  }

  lemma FieldsTrim(s: string)
    ensures Fields(Trim(s)) == Fields(s)
  {
    FieldsTrimLeft(s);
    var l := TrimLeft(s);
    var q := TrimRightSplit(l);
    if q != "" { assert IsSpace(q[0]); }
    FieldsApart(TrimRight(l), q);
    FieldsBlank(q);
  }

  lemma {:induction false} WordEndWord(w: string)
    requires forall i :: 0 <= i < |w| ==> !IsSpace(w[i])
    ensures WordEnd(w) == |w|
  {
    if w != "" { WordEndWord(w[1..]); }
  }

  lemma FieldsWord(w: string)
    requires IsWord(w)
    ensures Fields(w) == [w]
  {
    WordEndWord(w);
    assert w[..|w|] == w && w[|w|..] == "";
    assert [w] + [] == [w];
  }

  lemma {:induction false} WordEndFirst(s: string)
    ensures forall i :: 0 <= i < WordEnd(s) ==> !IsSpace(s[i])
  {
    if s != "" && !IsSpace(s[0]) { WordEndFirst(s[1..]); }
  }

  lemma {:induction false} FieldsAreWords(s: string)
    ensures AllWords(Fields(s))
    decreases |s|
  {
    if s == "" {
    } else if IsSpace(s[0]) {
      FieldsAreWords(s[1..]);
    } else {
      WordEndFirst(s);
      FieldsAreWords(s[WordEnd(s)..]);
    }
  }

  lemma {:induction false} FieldsOfJoin(ws: seq<string>)
    requires AllWords(ws)
    ensures Fields(Join(ws, " ")) == ws
  {
    if |ws| == 1 {
      FieldsWord(ws[0]);
    } else if |ws| > 1 {
      var later := Join(ws[1..], " ");
      FieldsOfJoin(ws[1..]);
      FieldsWord(ws[0]);
      assert ws[0] + " " + later == ws[0] + (" " + later);
      FieldsApart(ws[0], " " + later);
      assert (" " + later)[1..] == later;
    }
  }

  /** Single spaces between the words. */
  function Spaced(s: string): string {
    Join(Fields(s), " ")
  }

  lemma SpacedTwice(s: string)
    ensures Fields(Spaced(s)) == Fields(s) && Spaced(Spaced(s)) == Spaced(s)
  {
    FieldsAreWords(s);
    FieldsOfJoin(Fields(s));
  }
}
