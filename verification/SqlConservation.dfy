/**
 Byte conservation of the splitter: a run cuts the input into consecutive pieces,
 each of which is part of one statement, of a dropped comment, or of a DELIMITER line.
 */
module SqlConservation {
  import opened Text
  import opened SqlScanner

  /** The bytes one step read, their fate, the statement they completed and the buffer they left. */
  datatype Piece = Piece(text: string, fate: Fate, hit: Option<Hit>, after: string)

  /** What closed a segment: a statement hit, a DELIMITER line, or the end of the input. */
  datatype Ending = Statement(hit: Hit) | DelimiterLine | Remainder(text: string)

  function PieceOf(m: Move, rest: string): Piece
    requires m.n <= |rest|
  {
    Piece(rest[..m.n], m.fate, m.hit, m.next.stmt)
  }

  function Pieces(s: Scan, rest: string): seq<Piece>
    decreases |rest|
  {
    if rest == [] then []
    else
      var m := Step(s, rest);
      [PieceOf(m, rest)] + Pieces(m.next, rest[m.n..])
  }

  function Texts(ps: seq<Piece>): string {
    if ps == [] then "" else ps[0].text + Texts(ps[1..])
  }

  /** How one piece changes the statement buffer, by its fate. */
  predicate Keeps(stmt: string, p: Piece) {
    match p.fate
    case Kept =>
      if p.hit.Some? then p.hit.value.body + p.hit.value.delim == stmt + p.text && p.after == ""
      else p.after == stmt + p.text
    case Comment => p.hit.None? && p.after == stmt
    case Directive => p.hit.None? && Blank(stmt) && p.after == ""
  }

  predicate Linked(stmt: string, ps: seq<Piece>)
    decreases |ps|
  {
    ps == [] || (Keeps(stmt, ps[0]) && Linked(ps[0].after, ps[1..]))
  }

  function EndingOf(p: Piece): seq<Ending> {
    if p.hit.Some? then [Statement(p.hit.value)]
    else if p.fate.Directive? then [DelimiterLine]
    else []
  }

  /** The segments of a run, in order. */
  function Endings(stmt: string, ps: seq<Piece>): (e: seq<Ending>)
    ensures e != []
    decreases |ps|
  {
    if ps == [] then [Remainder(stmt)] else EndingOf(ps[0]) + Endings(ps[0].after, ps[1..])
  }

  function Gather(kept: string, p: Piece): string {
    if p.fate.Kept? then kept + p.text else kept
  }

  /** The kept bytes of the j-th segment from here; `kept` are those the current segment already has. */
  function KeptIn(kept: string, ps: seq<Piece>, j: nat): string
    decreases |ps|
  {
    if ps == [] then kept
    else if EndingOf(ps[0]) == [] then KeptIn(Gather(kept, ps[0]), ps[1..], j)
    else if j == 0 then Gather(kept, ps[0])
    else KeptIn("", ps[1..], j - 1)
  }

  /** What must have been kept in a segment, given how it ended. */
  predicate Accounts(e: Ending, kept: string) {
    match e
    case Statement(h) => kept == h.body + h.delim
    case DelimiterLine => Blank(kept)
    case Remainder(text) => kept == text
  }

  function RawText(e: seq<Ending>): string {
    if e == [] then ""
    else
      (match e[0]
       case Statement(h) => h.body + h.delim
       case DelimiterLine => ""
       case Remainder(text) => text) + RawText(e[1..])
  }

  /** The input without comments, DELIMITER lines and the blanks before them. */
  function Surviving(kept: string, ps: seq<Piece>): string
    decreases |ps|
  {
    if ps == [] then kept
    else if EndingOf(ps[0]) == [] then Surviving(Gather(kept, ps[0]), ps[1..])
    else (if ps[0].fate.Directive? then "" else Gather(kept, ps[0])) + Surviving("", ps[1..])
  }

  function HitsIn(e: seq<Ending>): seq<Hit> {
    if e == [] then []
    else (if e[0].Statement? then [e[0].hit] else []) + HitsIn(e[1..])
  }

  lemma StepKeeps(s: Scan, rest: string)
    requires rest != []
    ensures Keeps(s.stmt, PieceOf(Step(s, rest), rest))
  {
    if s.mode.Plain? {
      StepPlainKeeps(s, rest);
    }
  }

  lemma StepByteKeeps(s: Scan, rest: string)
    requires rest != []
    ensures Keeps(s.stmt, PieceOf(StepByte(s, rest[0]), rest))
  {
    assert rest[..1] == [rest[0]];
    var stmt := s.stmt + [rest[0]];
    if HasSuffix(stmt, s.delim) { assert stmt[..|stmt| - |s.delim|] + s.delim == stmt; }
  }

  lemma StepTextKeeps(s: Scan, rest: string)
    requires rest != []
    ensures StepText(s, rest).n <= |rest| && Keeps(s.stmt, PieceOf(StepText(s, rest), rest))
  {
    TrimIsBlank(s.stmt);
    StepByteKeeps(s, rest);
  }

  lemma StepPlainKeeps(s: Scan, rest: string)
    requires rest != []
    ensures StepPlain(s, rest).n <= |rest| && Keeps(s.stmt, PieceOf(StepPlain(s, rest), rest))
  {
    assert rest[..1] == [rest[0]];
    StepTextKeeps(s, rest);
  }

  /** The pieces are consecutive and cover the input. */
  lemma {:induction false} PiecesCover(s: Scan, rest: string)
    ensures Texts(Pieces(s, rest)) == rest
    decreases |rest|
  {
    if rest != [] {
      var m := Step(s, rest);
      var p, ps := PieceOf(m, rest), Pieces(m.next, rest[m.n..]);
      PiecesCover(m.next, rest[m.n..]);
      assert Texts([p] + ps) == p.text + Texts(ps) by { assert ([p] + ps)[1..] == ps; }
      assert rest == rest[..m.n] + rest[m.n..];
    }
  }

  /** The pieces form one chain of buffers. */
  lemma {:induction false} PiecesLinked(s: Scan, rest: string)
    ensures Linked(s.stmt, Pieces(s, rest))
    decreases |rest|
  {
    if rest != [] {
      var m := Step(s, rest);
      var p, ps := PieceOf(m, rest), Pieces(m.next, rest[m.n..]);
      StepKeeps(s, rest);
      PiecesLinked(m.next, rest[m.n..]);
      LinkedCons(s.stmt, p, ps);
    }
  }

  lemma LinkedCons(stmt: string, p: Piece, ps: seq<Piece>)
    requires Keeps(stmt, p) && Linked(p.after, ps)
    ensures Linked(stmt, [p] + ps)
  {
    assert ([p] + ps)[1..] == ps;
  }

  /** The segments are exactly the run: its hits in order, then what is left in the buffer. */
  lemma {:induction false} EndingsAreTheRun(s: Scan, rest: string)
    ensures var e := Endings(s.stmt, Pieces(s, rest));
            HitsIn(e) == Run(s, rest).hits && e[|e| - 1] == Remainder(Run(s, rest).last.stmt)
    decreases |rest|
  {
    if rest != [] {
      var m := Step(s, rest);
      var p, ps, t := PieceOf(m, rest), Pieces(m.next, rest[m.n..]), Run(m.next, rest[m.n..]);
      EndingsAreTheRun(m.next, rest[m.n..]);
      RunStep(s, rest);
      assert ([p] + ps)[1..] == ps;
      EndingsCons(p, Endings(p.after, ps));
      assert p.hit == m.hit;
    }
  }

  lemma EndingsCons(p: Piece, later: seq<Ending>)
    requires later != []
    ensures var e := EndingOf(p) + later;
            && HitsIn(e) == (if p.hit.Some? then [p.hit.value] else []) + HitsIn(later)
            && e[|e| - 1] == later[|later| - 1]
  {
    if EndingOf(p) == [] {
      assert EndingOf(p) + later == later;
    } else {
      assert (EndingOf(p) + later)[1..] == later;
    }
  }

  lemma {:induction false} SegmentAccounts(stmt: string, ps: seq<Piece>, j: nat)
    requires Linked(stmt, ps) && j < |Endings(stmt, ps)|
    ensures Accounts(Endings(stmt, ps)[j], KeptIn(stmt, ps, j))
    decreases |ps|
  {
    if ps != [] {
      var p, later := ps[0], Endings(ps[0].after, ps[1..]);
      if EndingOf(p) == [] {
        assert EndingOf(p) + later == later;
        SegmentAccounts(p.after, ps[1..], j);
      } else if j > 0 {
        assert (EndingOf(p) + later)[j] == later[j - 1];
        SegmentAccounts(p.after, ps[1..], j - 1);
      }
    }
  }

  lemma {:induction false} SurvivorsAreTheStatements(stmt: string, ps: seq<Piece>)
    requires Linked(stmt, ps)
    ensures Surviving(stmt, ps) == RawText(Endings(stmt, ps))
    decreases |ps|
  {
    if ps == [] {
      assert RawText([Remainder(stmt)]) == stmt + RawText([]);
    } else {
      var p, later := ps[0], Endings(ps[0].after, ps[1..]);
      SurvivorsAreTheStatements(p.after, ps[1..]);
      if EndingOf(p) == [] {
        assert EndingOf(p) + later == later;
      } else {
        assert (EndingOf(p) + later)[1..] == later;
      }
    }
  }

  /**
   Byte conservation.  The pieces of a run spell the input; the kept bytes of each
   segment are its raw statement with the delimiter (or what is left at the end of
   the input), and only blanks when a DELIMITER line ended it; and the raw
   statements one after the other are the input without what was dropped.
   */
  lemma Conservation(input: string)
    ensures var ps := Pieces(START, input);
            var ends := Endings("", ps);
            && Texts(ps) == input
            && (forall j :: 0 <= j < |ends| ==> Accounts(ends[j], KeptIn("", ps, j)))
            && HitsIn(ends) == Run(START, input).hits
            && ends[|ends| - 1] == Remainder(Run(START, input).last.stmt)
            && Surviving("", ps) == RawText(ends)
  {
    var ps := Pieces(START, input);
    var ends := Endings("", ps);
    PiecesCover(START, input);
    PiecesLinked(START, input);
    EndingsAreTheRun(START, input);
    SurvivorsAreTheStatements("", ps);
    forall j | 0 <= j < |ends|
      ensures Accounts(ends[j], KeptIn("", ps, j))
    {
      SegmentAccounts("", ps, j);
    }
  }
}
