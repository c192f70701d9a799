// What the deblocking filters give for each sample, in numbers: weights, steps and
// pulls of one line, and which line of an edge gets which filter.
module DeblockWeights {
  import opened Pixels
  import opened Deblocking
  import opened DeblockEdges
  import opened DeblockEquivalences

  // The samples of a line across the edge.
  function Samples(l: Line): (s: seq<int>)
    ensures |s| == 8
  {
    [l.p3, l.p2, l.p1, l.p0, l.q0, l.q1, l.q2, l.q3]
  }

  predicate Near(x: int, y: int, bound: int) {
    x - bound < y < x + bound
  }

  // The line is filtered (section 8.7.2.2 of H.264, filterSamplesFlag).
  predicate Filtered(l: Line, alpha: int, beta: int) {
    Near(l.p0, l.q0, alpha) && Near(l.p1, l.p0, beta) && Near(l.q1, l.q0, beta)
  }

  // The strong filter changes three samples on this side.
  predicate SmoothP(l: Line, alpha: int, beta: int) {
    Near(l.p0, l.q0, alpha / 4 + 2) && Near(l.p2, l.p0, beta)
  }

  predicate SmoothQ(l: Line, alpha: int, beta: int) {
    Near(l.p0, l.q0, alpha / 4 + 2) && Near(l.q2, l.q0, beta)
  }

  lemma SameTests(l: Line, alpha: int, beta: int)
    ensures Active(l, alpha, beta) <==> Filtered(l, alpha, beta)
    ensures Abs(l.p0 - l.q0) < alpha / 4 + 2 && Abs(l.p2 - l.p0) < beta <==> SmoothP(l, alpha, beta)
    ensures Abs(l.p0 - l.q0) < alpha / 4 + 2 && Abs(l.q2 - l.q0) < beta <==> SmoothQ(l, alpha, beta)
  {
  }

  // A line that is not filtered keeps its samples, whatever the filter.
  lemma Unfiltered(l: Line, alpha: int, beta: int, tc0: nat)
    requires !Filtered(l, alpha, beta)
    ensures LumaStrong(alpha, beta).Apply(l) == LumaNormal(alpha, beta, tc0).Apply(l) == l
    ensures PairStrong(alpha, beta).Apply(l) == PairNormal(alpha, beta, tc0).Apply(l) == l
  {
    SameTests(l, alpha, beta);
  }

  // ---- strong filter ----

  // How much each sample of the line, from p3 to q3, weighs in a new one, in eighths
  // (section 8.7.2.4 of H.264).
  function Weights(smoothP: bool, smoothQ: bool, j: nat): (w: seq<int>)
    requires j < 8
    ensures |w| == 8
    ensures w[0] + w[1] + w[2] + w[3] + w[4] + w[5] + w[6] + w[7] == 8
  {
    match j
    case 0 => [8, 0, 0, 0, 0, 0, 0, 0]
    case 1 => if smoothP then [2, 3, 1, 1, 1, 0, 0, 0] else [0, 8, 0, 0, 0, 0, 0, 0]
    case 2 => if smoothP then [0, 2, 2, 2, 2, 0, 0, 0] else [0, 0, 8, 0, 0, 0, 0, 0]
    case 3 => if smoothP then [0, 1, 2, 2, 2, 1, 0, 0] else [0, 0, 4, 2, 0, 2, 0, 0]
    case 4 => if smoothQ then [0, 0, 1, 2, 2, 2, 1, 0] else [0, 0, 2, 0, 2, 4, 0, 0]
    case 5 => if smoothQ then [0, 0, 0, 2, 2, 2, 2, 0] else [0, 0, 0, 0, 0, 8, 0, 0]
    case 6 => if smoothQ then [0, 0, 0, 1, 1, 1, 3, 2] else [0, 0, 0, 0, 0, 0, 8, 0]
    case _ => [0, 0, 0, 0, 0, 0, 0, 8]
  }

  function Dot(w: seq<int>, s: seq<int>): int
    requires |w| == |s| == 8
  {
    w[0] * s[0] + w[1] * s[1] + w[2] * s[2] + w[3] * s[3] + w[4] * s[4] + w[5] * s[5] + w[6] * s[6] + w[7] * s[7]
  }

  // x eighths, rounded to the nearest integer, halves up.
  predicate RoundsTo(x: int, r: int) {
    8 * r - 4 <= x < 8 * r + 4
  }

  // Every sample of a strongly filtered line is the rounded weighted mean.
  lemma StrongWeighted(l: Line, alpha: int, beta: int, j: nat)
    requires Filtered(l, alpha, beta) && j < 8
    ensures RoundsTo(Dot(Weights(SmoothP(l, alpha, beta), SmoothQ(l, alpha, beta), j), Samples(l)),
                     Samples(LumaStrong(alpha, beta).Apply(l))[j])
  {
    SameTests(l, alpha, beta);
  }

  // The chroma filter is the short one of luma on either side.
  lemma PairStrongWeighted(l: Line, alpha: int, beta: int, j: nat)
    requires Filtered(l, alpha, beta) && j < 8
    ensures RoundsTo(Dot(Weights(false, false, j), Samples(l)), Samples(PairStrong(alpha, beta).Apply(l))[j])
  {
    SameTests(l, alpha, beta);
  }

  // m is l with sample k higher by the amount.
  predicate Raised(l: Line, m: Line, k: nat, rise: int)
    requires k < 8
  {
    Samples(m) == Samples(l)[k := Samples(l)[k] + rise]
  }

  lemma DotRaised(w: seq<int>, l: Line, m: Line, k: nat)
    requires k < 8 && |w| == 8 && Raised(l, m, k, 8)
    ensures Dot(w, Samples(m)) == Dot(w, Samples(l)) + 8 * w[k]
  {
  }

  // Raising one sample by 8 raises every new sample by its weight.
  lemma StrongResponse(l: Line, m: Line, alpha: int, beta: int, k: nat, j: nat)
    requires k < 8 && j < 8 && Raised(l, m, k, 8)
    requires Filtered(l, alpha, beta) && Filtered(m, alpha, beta)
    requires SmoothP(l, alpha, beta) == SmoothP(m, alpha, beta) && SmoothQ(l, alpha, beta) == SmoothQ(m, alpha, beta)
    ensures Samples(LumaStrong(alpha, beta).Apply(m))[j]
            == Samples(LumaStrong(alpha, beta).Apply(l))[j]
               + Weights(SmoothP(l, alpha, beta), SmoothQ(l, alpha, beta), j)[k]
    ensures Samples(PairStrong(alpha, beta).Apply(m))[j]
            == Samples(PairStrong(alpha, beta).Apply(l))[j] + Weights(false, false, j)[k]
  {
    hide Weights, Dot, Samples, LineFilter.Apply, Filtered, SmoothP, SmoothQ, Raised;
    StrongWeighted(l, alpha, beta, j);
    StrongWeighted(m, alpha, beta, j);
    PairStrongWeighted(l, alpha, beta, j);
    PairStrongWeighted(m, alpha, beta, j);
    DotRaised(Weights(SmoothP(l, alpha, beta), SmoothQ(l, alpha, beta), j), l, m, k);
    DotRaised(Weights(false, false, j), l, m, k);
  }

  // A line of constant slope.
  predicate Ramp(l: Line, slope: int) {
    && l.p2 - l.p3 == slope && l.p1 - l.p2 == slope && l.p0 - l.p1 == slope && l.q0 - l.p0 == slope
    && l.q1 - l.q0 == slope && l.q2 - l.q1 == slope && l.q3 - l.q2 == slope
  }

  lemma RampMeans(l: Line, slope: int, r: Line)
    requires Ramp(l, slope)
    ensures Dot(Weights(true, true, 3), Samples(l)) == 8 * l.p0 && Samples(r)[3] == r.p0
    ensures Dot(Weights(true, true, 4), Samples(l)) == 8 * l.q0 && Samples(r)[4] == r.q0
  {
  }

  // The samples next to the edge stay on a smooth ramp.
  lemma StrongRamp(l: Line, alpha: int, beta: int, slope: int)
    requires Filtered(l, alpha, beta) && SmoothP(l, alpha, beta) && SmoothQ(l, alpha, beta) && Ramp(l, slope)
    ensures var r := LumaStrong(alpha, beta).Apply(l);
            (r.p0, r.q0) == (l.p0, l.q0)
  {
    hide LineFilter.Apply, Filtered, SmoothP, SmoothQ, Ramp, Dot, Weights, Samples;
    StrongWeighted(l, alpha, beta, 3);
    StrongWeighted(l, alpha, beta, 4);
    RampMeans(l, slope, LumaStrong(alpha, beta).Apply(l));
  }

  // ---- normal filter ----

  // The clipping bound: luma has one more for each smooth side, chroma always one.
  function LumaBound(l: Line, beta: int, tc0: nat): nat {
    tc0 + (if Near(l.p2, l.p0, beta) then 1 else 0) + (if Near(l.q2, l.q0, beta) then 1 else 0)
  }

  // d is the integer between -tc and tc nearest to an eighth of four times the edge
  // less the slope beside it, halves up (section 8.7.2.3 of H.264).
  predicate IsStep(l: Line, tc: int, d: int) {
    var x := 4 * l.q0 - 4 * l.p0 + l.p1 - l.q1;
    -tc <= d <= tc && (d == tc || x < 8 * d + 4) && (d == -tc || x >= 8 * d - 4)
  }

  // x moved by d, as far as a sample can.
  predicate MovedTo(x: int, d: int, r: int) {
    r == x + d || (r == 0 && x + d < 0) || (r == 255 && x + d > 255)
  }

  // x goes to the target, or tc0 towards it.
  predicate PulledTo(x: int, target: int, tc0: nat, r: int) {
    || (x - tc0 <= target <= x + tc0 && r == target)
    || (target > x + tc0 && r == x + tc0)
    || (target < x - tc0 && r == x - tc0)
  }

  // The two samples next to the edge make one step towards each other; the second
  // sample of a smooth side is pulled to the middle of the third and the edge.
  lemma NormalStep(l: Line, alpha: int, beta: int, tc0: nat) returns (d: int)
    requires Filtered(l, alpha, beta)
    ensures IsStep(l, LumaBound(l, beta, tc0), d)
    ensures var r, edge := LumaNormal(alpha, beta, tc0).Apply(l), (l.p0 + l.q0 + 1) / 2;
            && MovedTo(l.p0, d, r.p0) && MovedTo(l.q0, -d, r.q0)
            && (if Near(l.p2, l.p0, beta) then PulledTo(l.p1, (l.p2 + edge) / 2, tc0, r.p1) else r.p1 == l.p1)
            && (if Near(l.q2, l.q0, beta) then PulledTo(l.q1, (l.q2 + edge) / 2, tc0, r.q1) else r.q1 == l.q1)
            && r.p3 == l.p3 && r.p2 == l.p2 && r.q2 == l.q2 && r.q3 == l.q3
  {
    hide *;
    d := Delta(l, LumaBound(l, beta, tc0));
    NormalParts(l, alpha, beta, tc0);
    DeltaIsStep(l, LumaBound(l, beta, tc0));
    PullsTo(l, tc0);
    PullsTo(l.Reverse(), tc0);
    ClipMoves(l.p0, d);
    ClipMoves(l.q0, -d);
    TurnedLine(l);
  }

  lemma TurnedLine(l: Line)
    ensures var r := l.Reverse();
            (r.p2, r.p1, r.p0, r.q0) == (l.q2, l.q1, l.q0, l.p0)
  {
  }

  lemma NormalParts(l: Line, alpha: int, beta: int, tc0: nat)
    requires Filtered(l, alpha, beta)
    ensures var r, d := LumaNormal(alpha, beta, tc0).Apply(l), Delta(l, LumaBound(l, beta, tc0));
            && r.p0 == Clip(l.p0 + d) && r.q0 == Clip(l.q0 - d)
            && r.p1 == (if Near(l.p2, l.p0, beta) then l.p1 + Pull(l, tc0) else l.p1)
            && r.q1 == (if Near(l.q2, l.q0, beta) then l.q1 + Pull(l.Reverse(), tc0) else l.q1)
            && r.p3 == l.p3 && r.p2 == l.p2 && r.q2 == l.q2 && r.q3 == l.q3
  {
    hide Delta, Pull, Clip;
    SameTests(l, alpha, beta);
    assert Bound(l, beta, tc0) == LumaBound(l, beta, tc0);
  }

  lemma PairNormalStep(l: Line, alpha: int, beta: int, tc0: nat) returns (d: int)
    requires Filtered(l, alpha, beta)
    ensures IsStep(l, tc0 + 1, d)
    ensures var r := PairNormal(alpha, beta, tc0).Apply(l);
            && MovedTo(l.p0, d, r.p0) && MovedTo(l.q0, -d, r.q0)
            && r == l.(p0 := r.p0, q0 := r.q0)
  {
    hide Delta, Clip;
    SameTests(l, alpha, beta);
    d := Delta(l, tc0 + 1);
    DeltaIsStep(l, tc0 + 1);
    ClipMoves(l.p0, d);
    ClipMoves(l.q0, -d);
  }

  lemma DeltaIsStep(l: Line, tc: nat)
    ensures IsStep(l, tc, Delta(l, tc))
  {
  }

  lemma PullsTo(l: Line, tc0: nat)
    ensures PulledTo(l.p1, (l.p2 + (l.p0 + l.q0 + 1) / 2) / 2, tc0, l.p1 + Pull(l, tc0))
  {
  }

  lemma ClipMoves(x: U8, d: int)
    ensures MovedTo(x, d, Clip(x + d))
  {
  }

  // A ramp that is not steep keeps the samples next to the edge; a steep one loses
  // them unless the clipping forbids every step.
  lemma NormalRamp(l: Line, alpha: int, beta: int, tc0: nat, slope: int)
    requires Filtered(l, alpha, beta) && Ramp(l, slope)
    ensures var r := LumaNormal(alpha, beta, tc0).Apply(l);
            (r.p0, r.q0) == (l.p0, l.q0) <==> -4 <= slope <= 3 || LumaBound(l, beta, tc0) == 0
    ensures var r := PairNormal(alpha, beta, tc0).Apply(l);
            (r.p0, r.q0) == (l.p0, l.q0) <==> -4 <= slope <= 3
  {
    hide LineFilter.Apply, Filtered, LumaBound, IsStep, MovedTo;
    var d := NormalStep(l, alpha, beta, tc0);
    var e := PairNormalStep(l, alpha, beta, tc0);
    RampStep(l, LumaNormal(alpha, beta, tc0).Apply(l), slope, LumaBound(l, beta, tc0), d);
    RampStep(l, PairNormal(alpha, beta, tc0).Apply(l), slope, tc0 + 1, e);
  }

  lemma RampStep(l: Line, r: Line, slope: int, tc: nat, d: int)
    requires l.p1 == l.p0 - slope && l.q0 == l.p0 + slope && l.q1 == l.p0 + 2 * slope
    requires IsStep(l, tc, d) && MovedTo(l.p0, d, r.p0) && MovedTo(l.q0, -d, r.q0)
    ensures (r.p0, r.q0) == (l.p0, l.q0) <==> -4 <= slope <= 3 || tc == 0
  {
    assert d == 0 <==> -4 <= slope <= 3 || tc == 0;
  }

  // The step a filter made at p0 was clipped neither by tc nor by the sample range.
  predicate FreeStep(l: Line, r: Line, tc: int) {
    -tc < r.p0 - l.p0 < tc && 0 < r.p0 < 255
  }

  // What raises the step by one: two more at q0, two less at p0, eight more at p1,
  // eight less at q1; k counts the samples from p3.
  function Slack(k: nat): int
    requires 2 <= k <= 5
  {
    match k case 2 => 8 case 3 => -2 case 4 => 2 case _ => -8
  }

  lemma NormalResponse(l: Line, m: Line, alpha: int, beta: int, tc0: nat, k: nat)
    requires 2 <= k <= 5 && Raised(l, m, k, Slack(k)) && Filtered(l, alpha, beta) && Filtered(m, alpha, beta)
    requires LumaBound(l, beta, tc0) == LumaBound(m, beta, tc0)
    ensures var f, tc := LumaNormal(alpha, beta, tc0), LumaBound(l, beta, tc0);
            FreeStep(l, f.Apply(l), tc) && FreeStep(m, f.Apply(m), tc) ==>
              f.Apply(m).p0 - m.p0 == f.Apply(l).p0 - l.p0 + 1
    ensures var f := PairNormal(alpha, beta, tc0);
            FreeStep(l, f.Apply(l), tc0 + 1) && FreeStep(m, f.Apply(m), tc0 + 1) ==>
              f.Apply(m).p0 - m.p0 == f.Apply(l).p0 - l.p0 + 1
  {
    hide LineFilter.Apply, Filtered, LumaBound, Raised, IsStep, MovedTo, FreeStep;
    var d := NormalStep(l, alpha, beta, tc0);
    var e := NormalStep(m, alpha, beta, tc0);
    var d' := PairNormalStep(l, alpha, beta, tc0);
    var e' := PairNormalStep(m, alpha, beta, tc0);
    var f, g := LumaNormal(alpha, beta, tc0), PairNormal(alpha, beta, tc0);
    StepUp(l, m, f.Apply(l), f.Apply(m), LumaBound(l, beta, tc0), k, d, e);
    StepUp(l, m, g.Apply(l), g.Apply(m), tc0 + 1, k, d', e');
  }

  lemma StepUp(l: Line, m: Line, r: Line, s: Line, tc: nat, k: nat, d: int, e: int)
    requires 2 <= k <= 5 && Raised(l, m, k, Slack(k)) && IsStep(l, tc, d) && IsStep(m, tc, e)
    requires MovedTo(l.p0, d, r.p0) && MovedTo(m.p0, e, s.p0)
    ensures FreeStep(l, r, tc) && FreeStep(m, s, tc) ==> s.p0 - m.p0 == r.p0 - l.p0 + 1
  {
    hide Raised;
    RaisedIs(l, m, k);
  }

  lemma RaisedIs(l: Line, m: Line, k: nat)
    requires 2 <= k <= 5 && Raised(l, m, k, Slack(k))
    ensures 4 * m.q0 - 4 * m.p0 + m.p1 - m.q1 == 4 * l.q0 - 4 * l.p0 + l.p1 - l.q1 + 8
  {
    assert forall i :: 0 <= i < 8 && i != k ==> Samples(m)[i] == Samples(l)[i];
    assert Samples(m)[k] == Samples(l)[k] + Slack(k);
    assert m.p1 == Samples(m)[2] && m.p0 == Samples(m)[3] && m.q0 == Samples(m)[4] && m.q1 == Samples(m)[5];
  }

  // ---- the lines of an edge ----

  // The line these samples make.
  function LineOf(s: seq<U8>): (l: Line)
    requires |s| == 8
    ensures Samples(l) == s
  {
    Line(s[0], s[1], s[2], s[3], s[4], s[5], s[6], s[7])
  }

  lemma EdgeShows(after: seq<U8>, before: seq<U8>, lines: seq<int>, step: int, w: int, fs: seq<LineFilter>, k: nat)
    requires EdgeDone(after, before, lines, step, w, fs) && k < |lines|
    ensures |after| == |before| && k < |fs|
    ensures Shows(after, lines[k], step, w, fs[k].Apply(LineAt(before, lines[k], step, w)))
  {
    hide Shows, LineFilter.Apply, LineAt;
    assert lines[k] == lines[k];
  }

  // Row r of a vertical edge, 16 rows or 8, is the strong filter of its eight samples.
  lemma StrongRow(after: seq<U8>, before: seq<U8>, src: int, strd: int, n: nat, alpha: int, beta: int, r: nat)
    requires EdgeDone(after, before, Lines(src, strd, 4 * n), 1, 4, StrongFilters(n, alpha, beta)) && r < 4 * n
    requires 4 <= src + r * strd && src + r * strd + 4 <= |before|
    ensures var i := src + r * strd;
            && |after| == |before|
            && after[i - 4..i + 4] == Samples(LumaStrong(alpha, beta).Apply(LineOf(before[i - 4..i + 4])))
  {
    hide EdgeDone, LineFilter.Apply;
    EdgeShows(after, before, Lines(src, strd, 4 * n), 1, 4, StrongFilters(n, alpha, beta), r);
    var i := src + r * strd;
    assert LineAt(before, i, 1, 4) == LineOf(before[i - 4..i + 4]);
  }

  // Row r is the normal filter of its six samples, with the clipping value of the
  // strength of its block, or is left alone at strength 0. The strengths are the bytes
  // of the packed word, highest first.
  lemma NormalRow(after: seq<U8>, before: seq<U8>, src: int, strd: int, n: nat, alpha: int, beta: int, b: seq<nat>,
      tab: seq<U8>, r: nat)
    requires |b| == 4 && (forall k :: 0 <= k < 4 ==> b[k] < 4) && ClipRow(tab) && r < 4 * n
    requires var u4Bs := ((b[0] * 256 + b[1]) * 256 + b[2]) * 256 + b[3];
             && BelowFour(u4Bs)
             && EdgeDone(after, before, Lines(src, strd, 4 * n), 1, 3, NormalFilters(n, alpha, beta, u4Bs, tab))
    requires 3 <= src + r * strd && src + r * strd + 3 <= |before|
    ensures var i, s := src + r * strd, b[r / n];
            && |after| == |before|
            && after[i - 3..i + 3] == if s == 0 then before[i - 3..i + 3]
               else Samples(LumaNormal(alpha, beta, tab[s]).Apply(LineOf([0] + before[i - 3..i + 3] + [0])))[1..7]
  {
    hide EdgeDone, LineFilter.Apply, NormalFilters, BelowFour, ClipRow, Shows;
    var u4Bs := ((b[0] * 256 + b[1]) * 256 + b[2]) * 256 + b[3];
    NormalFilterAt(n, alpha, beta, b, tab, r);
    var fs := NormalFilters(n, alpha, beta, u4Bs, tab);
    EdgeShows(after, before, Lines(src, strd, 4 * n), 1, 3, fs, r);
    var i := src + r * strd;
    LineShown(after, before, i, fs[r]);
    OffKeeps(LineOf([0] + before[i - 3..i + 3] + [0]));
  }

  lemma LineShown(after: seq<U8>, before: seq<U8>, i: int, f: LineFilter)
    requires 3 <= i && i + 3 <= |before| == |after| && Shows(after, i, 1, 3, f.Apply(LineAt(before, i, 1, 3)))
    ensures after[i - 3..i + 3] == Samples(f.Apply(LineOf([0] + before[i - 3..i + 3] + [0])))[1..7]
  {
    hide LineFilter.Apply;
    assert LineAt(before, i, 1, 3) == LineOf([0] + before[i - 3..i + 3] + [0]);
  }

  lemma Packed(b: seq<nat>)
    requires |b| == 4
    ensures ((b[0] * 256 + b[1]) * 256 + b[2]) * 256 + b[3] == Pack(b[0], b[1], b[2], b[3])
  {
  }

  lemma NormalFilterAt(n: nat, alpha: int, beta: int, b: seq<nat>, tab: seq<U8>, r: nat)
    requires |b| == 4 && (forall k :: 0 <= k < 4 ==> b[k] < 4) && ClipRow(tab) && r < 4 * n
    ensures var u4Bs := ((b[0] * 256 + b[1]) * 256 + b[2]) * 256 + b[3];
            && BelowFour(u4Bs) && r / n < 4 && |tab| == 4 && tab[b[r / n]] <= 25
            && NormalFilters(n, alpha, beta, u4Bs, tab)[r]
               == if b[r / n] == 0 then Off else LumaNormal(alpha, beta, tab[b[r / n]])
  {
    hide Strength, Pack, BelowFour, NormalFilters;
    var u4Bs := Pack(b[0], b[1], b[2], b[3]);
    Packed(b);
    Unpack(b[0], b[1], b[2], b[3]);
    BlockOf(b, u4Bs, r, n);
    FilterOfBlock(n, alpha, beta, u4Bs, tab, r);
  }

  lemma FilterOfBlock(n: nat, alpha: int, beta: int, u4Bs: nat, tab: seq<U8>, r: nat)
    requires BelowFour(u4Bs) && ClipRow(tab) && r < 4 * n && r / n < 4
    ensures NormalFilters(n, alpha, beta, u4Bs, tab)[r] == NormalFilter(alpha, beta, u4Bs, tab, r / n)
  {
    hide Strength, NormalFilter, BelowFour, ClipRow;
  }

  lemma OffKeeps(l: Line)
    ensures Off.Apply(l) == l
  {
  }

  lemma BlockOf(b: seq<nat>, u4Bs: nat, r: nat, n: nat)
    requires |b| == 4 && r < 4 * n
    requires Strength(u4Bs, 0) == b[0] && Strength(u4Bs, 1) == b[1]
    requires Strength(u4Bs, 2) == b[2] && Strength(u4Bs, 3) == b[3]
    ensures r / n < 4 && Strength(u4Bs, r / n) == b[r / n]
  {
    hide Strength;
  }

  // ---- the lines of a chroma edge ----

  // Row r of plane v, 0 for U and 1 for V: every other sample.
  function PairOf(s: seq<U8>, src: int, strd: int, r: int, v: int): (l: Line) {
    var i := src + r * strd + v;
    Line(0, 0, Sample(s, i - 4), Sample(s, i - 2), Sample(s, i), Sample(s, i + 2), 0, 0)
  }

  lemma PairShown(after: seq<U8>, before: seq<U8>, src: int, strd: int, r: int, v: int, f: LineFilter)
    requires f.Off? || f.PairStrong? || f.PairNormal?
    requires var i := src + r * strd + v; Shows(after, i, 2, 2, f.Apply(LineAt(before, i, 2, 2)))
    ensures PairOf(after, src, strd, r, v) == f.Apply(PairOf(before, src, strd, r, v))
  {
    hide Delta, Clip, Active;
  }

  // Each plane is filtered with its own thresholds.
  lemma PairStrongRow(after: seq<U8>, before: seq<U8>, src: int, strd: int, alphaCb: int, betaCb: int, alphaCr: int,
      betaCr: int, r: nat)
    requires EdgeDone(after, before, PairLines(src, strd), 2, 2, PairStrongFilters(alphaCb, betaCb, alphaCr, betaCr))
    requires r < 8
    ensures PairOf(after, src, strd, r, 0) == PairStrong(alphaCb, betaCb).Apply(PairOf(before, src, strd, r, 0))
    ensures PairOf(after, src, strd, r, 1) == PairStrong(alphaCr, betaCr).Apply(PairOf(before, src, strd, r, 1))
  {
    hide EdgeDone, Shows, LineAt, PairOf, LineFilter.Apply;
    var fs := PairStrongFilters(alphaCb, betaCb, alphaCr, betaCr);
    PairLineAt(src, strd, r);
    EdgeShows(after, before, PairLines(src, strd), 2, 2, fs, 2 * r);
    EdgeShows(after, before, PairLines(src, strd), 2, 2, fs, 2 * r + 1);
    PairShown(after, before, src, strd, r, 0, fs[2 * r]);
    PairShown(after, before, src, strd, r, 1, fs[2 * r + 1]);
  }

  // The same for the normal filter, with the clipping value of the strength of two rows.
  lemma PairNormalRow(after: seq<U8>, before: seq<U8>, src: int, strd: int, alphaCb: int, betaCb: int, alphaCr: int,
      betaCr: int, b: seq<nat>, tabCb: seq<U8>, tabCr: seq<U8>, r: nat)
    requires |b| == 4 && (forall k :: 0 <= k < 4 ==> b[k] < 4) && ClipRow(tabCb) && ClipRow(tabCr) && r < 8
    requires var u4Bs := ((b[0] * 256 + b[1]) * 256 + b[2]) * 256 + b[3];
             && BelowFour(u4Bs)
             && EdgeDone(after, before, PairLines(src, strd), 2, 2,
                         PairNormalFilters(alphaCb, betaCb, alphaCr, betaCr, u4Bs, tabCb, tabCr))
    ensures var s, u, v := b[r / 2], PairOf(before, src, strd, r, 0), PairOf(before, src, strd, r, 1);
            && PairOf(after, src, strd, r, 0) == (if s == 0 then u else PairNormal(alphaCb, betaCb, tabCb[s]).Apply(u))
            && PairOf(after, src, strd, r, 1) == (if s == 0 then v else PairNormal(alphaCr, betaCr, tabCr[s]).Apply(v))
  {
    hide EdgeDone, Strength, Pack, Shows, LineAt, PairOf, LineFilter.Apply, PairLines;
    var u4Bs := ((b[0] * 256 + b[1]) * 256 + b[2]) * 256 + b[3];
    Packed(b);
    Unpack(b[0], b[1], b[2], b[3]);
    BlockOf(b, u4Bs, r, 2);
    OffKeeps(PairOf(before, src, strd, r, 0));
    OffKeeps(PairOf(before, src, strd, r, 1));
    var fs := PairNormalFilters(alphaCb, betaCb, alphaCr, betaCr, u4Bs, tabCb, tabCr);
    PairLineAt(src, strd, r);
    EdgeShows(after, before, PairLines(src, strd), 2, 2, fs, 2 * r);
    EdgeShows(after, before, PairLines(src, strd), 2, 2, fs, 2 * r + 1);
    PairShown(after, before, src, strd, r, 0, fs[2 * r]);
    PairShown(after, before, src, strd, r, 1, fs[2 * r + 1]);
  }
}
