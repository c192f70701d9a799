// Deblocking one line of samples across an edge (sections 8.7.2.3 and 8.7.2.4 of
// H.264).
module Deblocking {
  import opened Pixels

  // p3 .. p0 on one side of the edge, q0 .. q3 on the other.
  datatype Line = Line(p3: U8, p2: U8, p1: U8, p0: U8, q0: U8, q1: U8, q2: U8, q3: U8) {
    function Reverse(): Line { Line(q3, q2, q1, q0, p0, p1, p2, p3) }

    predicate Within(lo: int, hi: int) {
      && lo <= p3 <= hi && lo <= p2 <= hi && lo <= p1 <= hi && lo <= p0 <= hi
      && lo <= q0 <= hi && lo <= q1 <= hi && lo <= q2 <= hi && lo <= q3 <= hi
    }
  }

  function Abs(x: int): nat { if x < 0 then -x else x }

  function Clip3(lo: int, hi: int, x: int): int { if x < lo then lo else if x > hi then hi else x }

  // The samples next to the edge are close enough to be filtered.
  predicate Active(l: Line, alpha: int, beta: int) {
    Abs(l.p0 - l.q0) < alpha && Abs(l.q1 - l.q0) < beta && Abs(l.p1 - l.p0) < beta
  }

  // New x0, x1, x2 of the strong luma filter for one side x of the edge, with y
  // the other side.
  function StrongOut(x3: U8, x2: U8, x1: U8, x0: U8, y0: U8, y1: U8, smooth: bool): (U8, U8, U8) {
    if smooth then
      ((x2 + 2 * x1 + 2 * x0 + 2 * y0 + y1 + 4) / 8, (x2 + x1 + x0 + y0 + 2) / 4,
       (2 * x3 + 3 * x2 + x1 + x0 + y0 + 4) / 8)
    else
      ((2 * x1 + x0 + y1 + 2) / 4, x1, x2)
  }

  // The p side; the q side is the same function of the reversed line.
  function StrongSide(l: Line, alpha: int, beta: int): (U8, U8, U8) {
    StrongOut(l.p3, l.p2, l.p1, l.p0, l.q0, l.q1, Abs(l.p0 - l.q0) < alpha / 4 + 2 && Abs(l.p2 - l.p0) < beta)
  }

  function Strong(l: Line, alpha: int, beta: int): Line {
    if Active(l, alpha, beta) then
      var (p0, p1, p2) := StrongSide(l, alpha, beta);
      var (q0, q1, q2) := StrongSide(l.Reverse(), alpha, beta);
      Line(l.p3, p2, p1, p0, q0, q1, q2, l.q3)
    else l
  }

  // Twice the step of the normal filter, before rounding, is x / 4.
  function Gradient(l: Line): int { 4 * (l.q0 - l.p0) + (l.p1 - l.q1) }

  function Delta(l: Line, tc: int): int { Clip3(-tc, tc, (Gradient(l) + 4) / 8) }

  // How far p1 is pulled towards the middle of p2 and the edge.
  function Pull(l: Line, tc0: int): int { Clip3(-tc0, tc0, (l.p2 + (l.p0 + l.q0 + 1) / 2 - 2 * l.p1) / 2) }

  // The clipping bound: one more for each side that is smooth.
  function Bound(l: Line, beta: int, tc0: int): int {
    tc0 + (if Abs(l.p2 - l.p0) < beta then 1 else 0) + (if Abs(l.q2 - l.q0) < beta then 1 else 0)
  }

  function Normal(l: Line, alpha: int, beta: int, tc0: int): Line
    requires tc0 >= 0
  {
    if Active(l, alpha, beta) then
      var delta := Delta(l, Bound(l, beta, tc0));
      PullStays(l, tc0);
      PullStays(l.Reverse(), tc0);
      l.(p0 := Clip(l.p0 + delta), q0 := Clip(l.q0 - delta),
         p1 := if Abs(l.p2 - l.p0) < beta then l.p1 + Pull(l, tc0) else l.p1,
         q1 := if Abs(l.q2 - l.q0) < beta then l.q1 + Pull(l.Reverse(), tc0) else l.q1)
    else l
  }

  // The unclipped update of p1 lands between p1 and the middle of p2 and the
  // rounded mean at the edge, so it stays a sample.
  lemma PullStays(l: Line, tc0: int)
    requires tc0 >= 0
    ensures var middle := (l.p2 + (l.p0 + l.q0 + 1) / 2) / 2;
            l.p1 <= l.p1 + Pull(l, tc0) <= middle || middle <= l.p1 + Pull(l, tc0) <= l.p1
    ensures 0 <= l.p1 + Pull(l, tc0) < 256
    ensures Abs(Pull(l, tc0)) <= tc0
  {
  }

  function ChromaStrong(l: Line, alpha: int, beta: int): Line {
    if Active(l, alpha, beta) then
      l.(p0 := (2 * l.p1 + l.p0 + l.q1 + 2) / 4, q0 := (2 * l.q1 + l.q0 + l.p1 + 2) / 4)
    else l
  }

  function ChromaNormal(l: Line, alpha: int, beta: int, tc0: int): Line {
    if Active(l, alpha, beta) then
      var delta := Delta(l, tc0 + 1);
      l.(p0 := Clip(l.p0 + delta), q0 := Clip(l.q0 - delta))
    else l
  }

  // ---- the strong filter ----

  lemma StrongSideBounded(l: Line, alpha: int, beta: int, lo: int, hi: int)
    requires l.Within(lo, hi)
    ensures var (p0, p1, p2) := StrongSide(l, alpha, beta);
            lo <= p0 <= hi && lo <= p1 <= hi && lo <= p2 <= hi
    ensures lo <= (2 * l.p1 + l.p0 + l.q1 + 2) / 4 <= hi
  {
  }

  // No new extremes; in particular constant lines are fixed.
  lemma StrongBounded(l: Line, alpha: int, beta: int, lo: int, hi: int)
    requires l.Within(lo, hi)
    ensures Strong(l, alpha, beta).Within(lo, hi) && ChromaStrong(l, alpha, beta).Within(lo, hi)
    ensures lo == hi ==> Strong(l, alpha, beta) == l && ChromaStrong(l, alpha, beta) == l
  {
    hide StrongSide, Active;
    StrongSideBounded(l, alpha, beta, lo, hi);
    StrongSideBounded(l.Reverse(), alpha, beta, lo, hi);
  }

  // The two sides are treated alike.
  lemma StrongMirror(l: Line, alpha: int, beta: int)
    ensures Strong(l.Reverse(), alpha, beta) == Strong(l, alpha, beta).Reverse()
    ensures ChromaStrong(l.Reverse(), alpha, beta) == ChromaStrong(l, alpha, beta).Reverse()
  {
    hide StrongSide;
    assert l.Reverse().Reverse() == l;
  }

  // ---- the normal filter ----

  lemma StepBounded(l: Line, tc: int)
    requires tc >= 0
    ensures Abs(Delta(l, tc)) <= tc
    ensures Abs(Clip(l.p0 + Delta(l, tc)) - l.p0) <= tc && Abs(Clip(l.q0 - Delta(l, tc)) - l.q0) <= tc
  {
    hide Gradient;
  }

  lemma NormalBounded(l: Line, alpha: int, beta: int, tc0: int)
    requires tc0 >= 0
    ensures var n := Normal(l, alpha, beta, tc0);
            && Abs(n.p0 - l.p0) <= Bound(l, beta, tc0) && Abs(n.q0 - l.q0) <= Bound(l, beta, tc0)
            && Abs(n.p1 - l.p1) <= tc0 && Abs(n.q1 - l.q1) <= tc0
            && n.p2 == l.p2 && n.p3 == l.p3 && n.q2 == l.q2 && n.q3 == l.q3
  {
    hide Delta, Pull, Active, Clip;
    PullStays(l, tc0);
    PullStays(l.Reverse(), tc0);
    StepBounded(l, Bound(l, beta, tc0));
  }

  lemma LopsidedStep(l: Line)
    requires Gradient(l) == 4
    ensures Delta(l, 2) == 1 && Delta(l.Reverse(), 2) == 0
  {
    assert Gradient(l.Reverse()) == -4;
  }

  // Rounding up makes the step lopsided: an edge of height one is moved from one
  // side and left alone from the other.
  lemma NormalLopsided()
    ensures var l := Line(10, 10, 10, 10, 11, 10, 10, 10);
            Normal(l, 4, 4, 0) == l.(p0 := 11, q0 := 10) && Normal(l.Reverse(), 4, 4, 0) == l.Reverse()
  {
    hide Pull, Delta;
    var l := Line(10, 10, 10, 10, 11, 10, 10, 10);
    PullStays(l, 0);
    PullStays(l.Reverse(), 0);
    LopsidedStep(l);
  }

  // Exactly when reversing a line commutes with the normal filter: unless the
  // step is a tie that the clipping does not hide.
  lemma NormalMirrorExact(l: Line, alpha: int, beta: int, tc0: int)
    requires 0 <= tc0 <= 25
    ensures var d, tc := (Gradient(l) + 4) / 8, Bound(l, beta, tc0);
            Normal(l.Reverse(), alpha, beta, tc0) == Normal(l, alpha, beta, tc0).Reverse()
            <==> !Active(l, alpha, beta) || Gradient(l) % 8 != 4 || d > tc || d <= -tc
  {
    hide Pull, Delta, Clip, Gradient, Active, Bound;
    MirrorParts(l, alpha, beta, tc0);
    StepMirror(l, Bound(l, beta, tc0));
  }

  lemma MirrorParts(l: Line, alpha: int, beta: int, tc0: int)
    requires tc0 >= 0
    ensures Bound(l.Reverse(), beta, tc0) == Bound(l, beta, tc0) <= tc0 + 2 && 0 <= Bound(l, beta, tc0)
    ensures Active(l.Reverse(), alpha, beta) == Active(l, alpha, beta)
  {
  }

  lemma StepMirror(l: Line, tc: int)
    requires 0 <= tc <= 27
    ensures var r, d := l.Reverse(), (Gradient(l) + 4) / 8;
            && Clip(r.p0 + Delta(r, tc)) == Clip(l.q0 - Delta(l, tc))
            && Clip(r.q0 - Delta(r, tc)) == Clip(l.p0 + Delta(l, tc))
            <==> Gradient(l) % 8 != 4 || d > tc || d <= -tc
  {
    var r, g := l.Reverse(), Gradient(l);
    var c, c' := Delta(l, tc), Delta(r, tc);
    assert Gradient(r) == -g;
    if g % 8 != 4 {
      assert (-g + 4) / 8 == -((g + 4) / 8);
    } else {
      assert (-g + 4) / 8 == 1 - (g + 4) / 8;
      if -tc < (g + 4) / 8 <= tc {
        TieShows(l, c, tc);
      }
    }
  }

  // A tie moves one of the two samples.
  lemma TieShows(l: Line, c: int, tc: int)
    requires 0 <= tc <= 27 && -tc < c <= tc && c == Delta(l, tc)
    ensures Clip(l.p0 + c) != Clip(l.p0 + c - 1) || Clip(l.q0 - c) != Clip(l.q0 - c + 1)
  {
  }
}
