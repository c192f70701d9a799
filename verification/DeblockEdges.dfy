// The deblocking functions, filtering the lines of an edge in place.
module DeblockEdges {
  import opened Pixels
  import opened Deblocking

  // ---- lines in a plane ----

  // What is done to one line.
  datatype LineFilter =
    | Off
    | LumaStrong(alpha: int, beta: int) | LumaNormal(alpha: int, beta: int, tc0: nat)
    | PairStrong(alpha: int, beta: int) | PairNormal(alpha: int, beta: int, tc0: nat)
  {
    function Apply(l: Line): Line {
      match this
      case Off => l
      case LumaStrong(alpha, beta) => Strong(l, alpha, beta)
      case LumaNormal(alpha, beta, tc0) => Normal(l, alpha, beta, tc0)
      case PairStrong(alpha, beta) => ChromaStrong(l, alpha, beta)
      case PairNormal(alpha, beta, tc0) => ChromaNormal(l, alpha, beta, tc0)
    }
  }

  // A line is given by the index of q0 and the step from sample to sample; w of
  // its samples on each side belong to it.
  predicate InLine(x: int, i: int, step: int, w: int) {
    || x == i - step || x == i || x == i - 2 * step || x == i + step
    || (w >= 3 && (x == i - 3 * step || x == i + 2 * step))
    || (w >= 4 && (x == i - 4 * step || x == i + 3 * step))
  }

  function Sample(s: seq<U8>, x: int): U8 {
    if 0 <= x < |s| then s[x] else 0
  }

  function LineAt(s: seq<U8>, i: int, step: int, w: int): Line {
    Line(if w >= 4 then Sample(s, i - 4 * step) else 0, if w >= 3 then Sample(s, i - 3 * step) else 0,
         Sample(s, i - 2 * step), Sample(s, i - step), Sample(s, i), Sample(s, i + step),
         if w >= 3 then Sample(s, i + 2 * step) else 0, if w >= 4 then Sample(s, i + 3 * step) else 0)
  }

  predicate LineFits(length: nat, i: int, step: int, w: int) {
    && step > 0
    && 0 <= i - 2 * step && i + step < length
    && (w >= 3 ==> 0 <= i - 3 * step && i + 2 * step < length)
    && (w >= 4 ==> 0 <= i - 4 * step && i + 3 * step < length)
  }

  // The samples of the line in s are those of l.
  ghost predicate Shows(s: seq<U8>, i: int, step: int, w: int, l: Line) {
    && Sample(s, i - 2 * step) == l.p1 && Sample(s, i - step) == l.p0
    && Sample(s, i) == l.q0 && Sample(s, i + step) == l.q1
    && (w >= 3 ==> Sample(s, i - 3 * step) == l.p2 && Sample(s, i + 2 * step) == l.q2)
    && (w >= 4 ==> Sample(s, i - 4 * step) == l.p3 && Sample(s, i + 3 * step) == l.q3)
  }

  // One line is filtered and nothing else changes.
  ghost predicate LineDone(after: seq<U8>, before: seq<U8>, i: int, step: int, w: int, f: LineFilter) {
    && |after| == |before|
    && Shows(after, i, step, w, f.Apply(LineAt(before, i, step, w)))
    && forall x {:trigger after[x]} :: 0 <= x < |after| && !InLine(x, i, step, w) ==> after[x] == before[x]
  }

  // The lines of an edge, in the order in which they are filtered, do not share
  // samples.
  ghost predicate Separate(lines: seq<int>, step: int, w: int) {
    forall m, n, x {:trigger InLine(x, lines[m], step, w), InLine(x, lines[n], step, w)} ::
      0 <= m < n < |lines| ==> !(InLine(x, lines[m], step, w) && InLine(x, lines[n], step, w))
  }

  ghost predicate Touched(x: int, lines: seq<int>, step: int, w: int, k: int) {
    exists m {:trigger lines[m]} :: 0 <= m < k && m < |lines| && InLine(x, lines[m], step, w)
  }

  // The first k lines are filtered, each from its original samples.
  ghost predicate DoneTo(after: seq<U8>, before: seq<U8>, lines: seq<int>, step: int, w: int, fs: seq<LineFilter>,
      k: int) {
    && |after| == |before| && |lines| == |fs|
    && (forall m {:trigger lines[m]} :: 0 <= m < k && m < |lines| ==>
          Shows(after, lines[m], step, w, fs[m].Apply(LineAt(before, lines[m], step, w))))
    && (forall x {:trigger after[x]} :: 0 <= x < |after| && !Touched(x, lines, step, w, k) ==> after[x] == before[x])
  }

  // The whole edge is filtered.
  ghost predicate EdgeDone(after: seq<U8>, before: seq<U8>, lines: seq<int>, step: int, w: int, fs: seq<LineFilter>) {
    DoneTo(after, before, lines, step, w, fs, |lines|)
  }

  lemma DoneStart(before: seq<U8>, lines: seq<int>, step: int, w: int, fs: seq<LineFilter>)
    requires |lines| == |fs|
    ensures DoneTo(before, before, lines, step, w, fs, 0)
  {
  }

  // A line untouched so far still has its original samples, and filtering it
  // leaves the earlier lines alone.
  lemma DoneNext(next: seq<U8>, cur: seq<U8>, before: seq<U8>, lines: seq<int>, step: int, w: int,
      fs: seq<LineFilter>, k: nat)
    requires DoneTo(cur, before, lines, step, w, fs, k) && k < |lines| && Separate(lines, step, w)
    requires LineDone(next, cur, lines[k], step, w, fs[k])
    ensures DoneTo(next, before, lines, step, w, fs, k + 1)
  {
    hide LineFilter.Apply, LineAt, Shows, InLine, Sample;
    SameLine(cur, before, lines, step, w, k);
    forall m {:trigger lines[m]} | 0 <= m < k
      ensures Shows(next, lines[m], step, w, fs[m].Apply(LineAt(before, lines[m], step, w)))
    {
      KeepsLine(next, cur, lines[m], lines[k], step, w, fs[m].Apply(LineAt(before, lines[m], step, w)));
    }
  }

  lemma SameLine(cur: seq<U8>, before: seq<U8>, lines: seq<int>, step: int, w: int, k: nat)
    requires |cur| == |before| && k < |lines| && Separate(lines, step, w)
    requires forall x {:trigger cur[x]} :: 0 <= x < |cur| && !Touched(x, lines, step, w, k) ==> cur[x] == before[x]
    ensures LineAt(cur, lines[k], step, w) == LineAt(before, lines[k], step, w)
  {
    forall x | InLine(x, lines[k], step, w) ensures Sample(cur, x) == Sample(before, x) {
      forall m {:trigger lines[m]} | 0 <= m < k ensures !InLine(x, lines[m], step, w) {
      }
    }
    assert forall x :: InLine(x, lines[k], step, w) ==> Sample(cur, x) == Sample(before, x);
  }

  lemma KeepsLine(next: seq<U8>, cur: seq<U8>, i: int, other: int, step: int, w: int, l: Line)
    requires |next| == |cur| && Shows(cur, i, step, w, l)
    requires forall x :: !(InLine(x, i, step, w) && InLine(x, other, step, w))
    requires forall x {:trigger next[x]} :: 0 <= x < |next| && !InLine(x, other, step, w) ==> next[x] == cur[x]
    ensures Shows(next, i, step, w, l)
  {
    forall x | InLine(x, i, step, w) ensures Sample(next, x) == Sample(cur, x) {
    }
  }

  // ---- one line, in place ----

  // The absolute difference of two samples fits an unsigned byte.
  function Distance(x: U8, y: U8): U8 {
    Abs(x - y)
  }

  // Writing a line back sample by sample.
  lemma WroteLine(after: seq<U8>, before: seq<U8>, i: int, step: int, w: int, f: LineFilter)
    requires |after| == |before| && LineFits(|after|, i, step, w)
    requires var l := f.Apply(LineAt(before, i, step, w));
             && after[i - 2 * step] == l.p1 && after[i - step] == l.p0 && after[i] == l.q0 && after[i + step] == l.q1
             && (w >= 3 ==> after[i - 3 * step] == l.p2 && after[i + 2 * step] == l.q2)
             && (w >= 4 ==> after[i - 4 * step] == l.p3 && after[i + 3 * step] == l.q3)
    requires forall x {:trigger after[x]} :: 0 <= x < |after| && !InLine(x, i, step, w) ==> after[x] == before[x]
    ensures LineDone(after, before, i, step, w, f)
  {
    hide LineFilter.Apply, LineAt, InLine;
  }

  // One side of the strong luma filter: three samples, or only the nearest.
  method StrongWrite(a: array<U8>, i2: int, i1: int, i0: int, x3: U8, x2: U8, x1: U8, x0: U8, y0: U8, y1: U8,
      smooth: bool)
    requires 0 <= i2 < a.Length && 0 <= i1 < a.Length && 0 <= i0 < a.Length && i2 != i1 && i1 != i0 && i0 != i2
    requires a[i2] == x2 && a[i1] == x1 && a[i0] == x0
    modifies a
    ensures (a[i0], a[i1], a[i2]) == StrongOut(x3, x2, x1, x0, y0, y1, smooth)
    ensures forall x {:trigger a[x]} :: 0 <= x < a.Length && x != i0 && x != i1 && x != i2 ==> a[x] == old(a[x])
  {
    if smooth {
      a[i0] := (x2 + 2 * x1 + 2 * x0 + 2 * y0 + y1 + 4) / 8;
      a[i1] := (x2 + x1 + x0 + y0 + 2) / 4;
      a[i2] := (2 * x3 + 3 * x2 + x1 + x0 + y0 + 4) / 8;
    } else {
      a[i0] := (2 * x1 + x0 + y1 + 2) / 4;
    }
  }

  // The body of the strong luma filters. The indices are those of the samples;
  // i and step say which line they form.
  method StrongLine(a: array<U8>, ip3: int, ip2: int, ip1: int, ip0: int, iq0: int, iq1: int, iq2: int, iq3: int,
                    alpha: int, beta: int, ghost i: int, ghost step: int)
    requires LineFits(a.Length, i, step, 4)
    requires ip3 == i - 4 * step && ip2 == i - 3 * step && ip1 == i - 2 * step && ip0 == i - step
    requires iq0 == i && iq1 == i + step && iq2 == i + 2 * step && iq3 == i + 3 * step
    modifies a
    ensures LineDone(a[..], old(a[..]), i, step, 4, LumaStrong(alpha, beta))
  {
    hide StrongOut, LineDone;
    var q0, q1, p0, p1 := a[iq0], a[iq1], a[ip0], a[ip1];
    assert LineAt(a[..], i, step, 4) == Line(a[ip3], a[ip2], p1, p0, q0, q1, a[iq2], a[iq3]);
    if Distance(p0, q0) >= alpha || Distance(q1, q0) >= beta || Distance(p1, p0) >= beta {
      WroteLine(a[..], old(a[..]), i, step, 4, LumaStrong(alpha, beta));
      return;
    }
    var p2, p3, q2, q3 := a[ip2], a[ip3], a[iq2], a[iq3];
    if Distance(p0, q0) < alpha / 4 + 2 {
      var ap, aq := Distance(p2, p0), Distance(q2, q0);
      StrongWrite(a, ip2, ip1, ip0, p3, p2, p1, p0, q0, q1, ap < beta);
      StrongWrite(a, iq2, iq1, iq0, q3, q2, q1, q0, p0, p1, aq < beta);
    } else {
      StrongWrite(a, ip2, ip1, ip0, p3, p2, p1, p0, q0, q1, false);
      StrongWrite(a, iq2, iq1, iq0, q3, q2, q1, q0, p0, p1, false);
    }
    WroteLine(a[..], old(a[..]), i, step, 4, LumaStrong(alpha, beta));
  }

  // The clipped step of p0 and q0, luma and chroma. Every value fits its type.
  method StepWrite(a: array<U8>, ip0: int, iq0: int, p1: U8, p0: U8, q0: U8, q1: U8, tc: I8, ghost l: Line)
    requires 0 <= ip0 < a.Length && 0 <= iq0 < a.Length && ip0 != iq0 && 0 <= tc <= 27
    requires l.p1 == p1 && l.p0 == p0 && l.q0 == q0 && l.q1 == q1
    modifies a
    ensures a[ip0] == Clip(p0 + Delta(l, tc)) && a[iq0] == Clip(q0 - Delta(l, tc))
    ensures forall x {:trigger a[x]} :: 0 <= x < a.Length && x != ip0 && x != iq0 ==> a[x] == old(a[x])
  {
    var val: I16 := (4 * ((q0 as int) - p0) + ((p1 as int) - q1) + 4) / 8;
    var delta: I8 := Clip3(-tc, tc, val);
    val := (p0 as int) + delta;
    a[ip0] := Clip(val);
    val := (q0 as int) - delta;
    a[iq0] := Clip(val);
  }

  // The unclipped update of p1; of q1 on the reversed line.
  method PullWrite(a: array<U8>, i1: int, x2: U8, x1: U8, p0: U8, q0: U8, tc0: U8, ghost l: Line)
    requires 0 <= i1 < a.Length && a[i1] == x1 && tc0 <= 25
    requires l.p2 == x2 && l.p1 == x1 && ((l.p0 == p0 && l.q0 == q0) || (l.p0 == q0 && l.q0 == p0))
    modifies a
    ensures a[i1] == l.p1 + Pull(l, tc0)
    ensures forall x {:trigger a[x]} :: 0 <= x < a.Length && x != i1 ==> a[x] == old(a[x])
  {
    PullStays(l, tc0);
    var val: I16 := (x2 + ((p0 as int) + q0 + 1) / 2 - 2 * x1) / 2;
    a[i1] := (a[i1] as int) + Clip3(-(tc0 as int), tc0, val);
  }

  // The body of the normal luma filters.
  method NormalLine(a: array<U8>, ip2: int, ip1: int, ip0: int, iq0: int, iq1: int, iq2: int,
                    alpha: int, beta: int, tc0: U8, ghost i: int, ghost step: int)
    requires LineFits(a.Length, i, step, 3) && tc0 <= 25
    requires ip2 == i - 3 * step && ip1 == i - 2 * step && ip0 == i - step
    requires iq0 == i && iq1 == i + step && iq2 == i + 2 * step
    modifies a
    ensures LineDone(a[..], old(a[..]), i, step, 3, LumaNormal(alpha, beta, tc0))
  {
    hide Delta, Pull, Clip, LineDone;
    var q0, q1, p0, p1 := a[iq0], a[iq1], a[ip0], a[ip1];
    ghost var l := Line(0, a[ip2], p1, p0, q0, q1, a[iq2], 0);
    assert LineAt(a[..], i, step, 3) == l;
    if Distance(p0, q0) >= alpha || Distance(q1, q0) >= beta || Distance(p1, p0) >= beta {
      WroteLine(a[..], old(a[..]), i, step, 3, LumaNormal(alpha, beta, tc0));
      return;
    }
    var q2, p2 := a[iq2], a[ip2];
    var ap, aq := Distance(p2, p0), Distance(q2, q0);
    var tc: I8 := (tc0 as int) + (if ap < beta then 1 else 0) + (if aq < beta then 1 else 0);
    StepWrite(a, ip0, iq0, p1, p0, q0, q1, tc, l);
    if ap < beta {
      PullWrite(a, ip1, p2, p1, p0, q0, tc0, l);
    }
    if aq < beta {
      PullWrite(a, iq1, q2, q1, p0, q0, tc0, l.Reverse());
    }
    WroteLine(a[..], old(a[..]), i, step, 3, LumaNormal(alpha, beta, tc0));
  }

  // ---- chroma lines ----

  method PairStrongLine(a: array<U8>, ip1: int, ip0: int, iq0: int, iq1: int, alpha: int, beta: int, ghost i: int,
      ghost step: int)
    requires LineFits(a.Length, i, step, 2)
    requires ip1 == i - 2 * step && ip0 == i - step && iq0 == i && iq1 == i + step
    modifies a
    ensures LineDone(a[..], old(a[..]), i, step, 2, PairStrong(alpha, beta))
  {
    hide LineDone;
    var q0, q1, p0, p1 := a[iq0], a[iq1], a[ip0], a[ip1];
    assert LineAt(a[..], i, step, 2) == Line(0, 0, p1, p0, q0, q1, 0, 0);
    if Distance(p0, q0) < alpha && Distance(q1, q0) < beta && Distance(p1, p0) < beta {
      a[ip0] := (2 * (p1 as int) + p0 + q1 + 2) / 4;
      a[iq0] := (2 * (q1 as int) + q0 + p1 + 2) / 4;
    }
    WroteLine(a[..], old(a[..]), i, step, 2, PairStrong(alpha, beta));
  }

  method PairNormalLine(a: array<U8>, ip1: int, ip0: int, iq0: int, iq1: int, alpha: int, beta: int, tc0: U8,
      ghost i: int, ghost step: int)
    requires LineFits(a.Length, i, step, 2) && tc0 <= 25
    requires ip1 == i - 2 * step && ip0 == i - step && iq0 == i && iq1 == i + step
    modifies a
    ensures LineDone(a[..], old(a[..]), i, step, 2, PairNormal(alpha, beta, tc0))
  {
    hide Delta, Clip, LineDone;
    var q0, q1, p0, p1 := a[iq0], a[iq1], a[ip0], a[ip1];
    assert LineAt(a[..], i, step, 2) == Line(0, 0, p1, p0, q0, q1, 0, 0);
    if Distance(p0, q0) < alpha && Distance(q1, q0) < beta && Distance(p1, p0) < beta {
      StepWrite(a, ip0, iq0, p1, p0, q0, q1, tc0 + 1, Line(0, 0, p1, p0, q0, q1, 0, 0));
    }
    WroteLine(a[..], old(a[..]), i, step, 2, PairNormal(alpha, beta, tc0));
  }

  // ---- luma edges ----

  // Byte number edge of the packed boundary strengths, from the top.
  function Strength(u4Bs: nat, edge: nat): nat
    requires edge < 4
  {
    if edge == 0 then u4Bs / 0x100_0000 % 256
    else if edge == 1 then u4Bs / 0x1_0000 % 256
    else if edge == 2 then u4Bs / 0x100 % 256
    else u4Bs % 256
  }

  // A row of the clip table.
  predicate ClipRow(tab: seq<U8>) {
    |tab| == 4 && forall k :: 0 <= k < 4 ==> tab[k] <= 25
  }

  // The clipping values by quantizer index and strength.
  const CLIP_TABLE: seq<seq<U8>> :=
    [[0, 0, 0, 0], [0, 0, 0, 0], [0, 0, 0, 0], [0, 0, 0, 0],
     [0, 0, 0, 0], [0, 0, 0, 0], [0, 0, 0, 0], [0, 0, 0, 0]]
    + [[0, 0, 0, 0], [0, 0, 0, 0], [0, 0, 0, 0], [0, 0, 0, 0],
     [0, 0, 0, 0], [0, 0, 0, 0], [0, 0, 0, 0], [0, 0, 0, 0]]
    + [[0, 0, 0, 0], [0, 0, 0, 1], [0, 0, 0, 1], [0, 0, 0, 1],
     [0, 0, 0, 1], [0, 0, 1, 1], [0, 0, 1, 1], [0, 1, 1, 1]]
    + [[0, 1, 1, 1], [0, 1, 1, 1], [0, 1, 1, 1], [0, 1, 1, 2],
     [0, 1, 1, 2], [0, 1, 1, 2], [0, 1, 1, 2], [0, 1, 2, 3]]
    + [[0, 1, 2, 3], [0, 2, 2, 3], [0, 2, 2, 4], [0, 2, 3, 4],
     [0, 2, 3, 4], [0, 3, 3, 5], [0, 3, 4, 6], [0, 3, 4, 6]]
    + [[0, 4, 5, 7], [0, 4, 5, 8], [0, 4, 6, 9], [0, 5, 7, 10],
     [0, 6, 8, 11], [0, 6, 8, 13], [0, 7, 10, 14], [0, 8, 11, 16]]
    + [[0, 9, 12, 18], [0, 10, 13, 20], [0, 11, 15, 23], [0, 13, 17, 25]]

  predicate Clipping(row: seq<U8>) {
    ClipRow(row) && row[0] == 0 && row[0] <= row[1] <= row[2] <= row[3]
  }

  // The first n rows clip; evaluated for the whole table below.
  predicate RowsClip(n: nat) {
    n == 0 || (n <= |CLIP_TABLE| && Clipping(CLIP_TABLE[n - 1]) && RowsClip(n - 1))
  }

  lemma {:induction false} RowClips(n: nat, k: nat)
    requires RowsClip(n) && k < n
    ensures k < |CLIP_TABLE| && Clipping(CLIP_TABLE[k])
  {
    if k < n - 1 {
      RowClips(n - 1, k);
    }
  }

  lemma FirstRows()
    ensures RowsClip(26)
  {
    assert RowsClip(9);
    assert RowsClip(18);
  }

  lemma LastRows()
    ensures RowsClip(52)
  {
    FirstRows();
    assert RowsClip(35);
    assert RowsClip(44);
  }

  // Every row can be given to the normal filters, strength 0 clips to 0, and a
  // higher strength does not clip more.
  lemma ClipTableRows(indexA: nat)
    requires indexA < 52
    ensures indexA < |CLIP_TABLE| && Clipping(CLIP_TABLE[indexA])
  {
    LastRows();
    RowClips(52, indexA);
  }

  // Every packed strength indexes a row.
  predicate BelowFour(u4Bs: nat) {
    u4Bs < 0x1_0000_0000 && forall edge :: 0 <= edge < 4 ==> Strength(u4Bs, edge) < 4
  }

  // n lines, next apart.
  function Lines(src: int, next: int, n: nat): (ls: seq<int>)
    ensures |ls| == n && forall k :: 0 <= k < n ==> ls[k] == At(src, next, k, 0)
  {
    seq(n, k => At(src, next, k, 0))
  }

  // The filter of each line, when each of the four blocks of the edge has n lines.
  function StrongFilters(n: nat, alpha: int, beta: int): (fs: seq<LineFilter>)
    ensures |fs| == 4 * n
  {
    seq(4 * n, k => LumaStrong(alpha, beta))
  }

  function NormalFilter(alpha: int, beta: int, u4Bs: nat, tab: seq<U8>, edge: nat): LineFilter
    requires edge < 4 && BelowFour(u4Bs) && ClipRow(tab)
  {
    var bs := Strength(u4Bs, edge);
    if bs == 0 then Off else LumaNormal(alpha, beta, tab[bs])
  }

  function NormalFilters(n: nat, alpha: int, beta: int, u4Bs: nat, tab: seq<U8>): (fs: seq<LineFilter>)
    requires BelowFour(u4Bs) && ClipRow(tab)
    ensures |fs| == 4 * n
  {
    seq(4 * n, k requires 0 <= k < 4 * n => NormalFilter(alpha, beta, u4Bs, tab, k / n))
  }

  // The edge lies in the plane, one line clear of another.
  ghost predicate EdgeFits(length: nat, lines: seq<int>, step: int, w: int) {
    && (forall k {:trigger lines[k]} :: 0 <= k < |lines| ==> LineFits(length, lines[k], step, w))
    && Separate(lines, step, w)
  }

  lemma EdgeLine(length: nat, lines: seq<int>, step: int, w: int, k: nat)
    requires EdgeFits(length, lines, step, w) && k < |lines|
    ensures LineFits(length, lines[k], step, w) && Separate(lines, step, w)
  {
  }

  // A stride of eight keeps the lines of a vertical edge apart, a stride of n
  // those of a horizontal edge of n lines.
  lemma VertSeparate(src: int, strd: int, n: nat)
    requires strd >= 8
    ensures Separate(Lines(src, strd, n), 1, 4) && Separate(Lines(src, strd, n), 1, 3)
  {
    forall i, j | 0 <= i < j < n ensures At(src, strd, j, 0) >= At(src, strd, i, 0) + 8 {
      Apart(j - i, strd);
      assert (j - i) * strd == j * strd - i * strd;
    }
  }

  lemma HorzSeparate(src: int, strd: int, n: nat)
    requires strd >= n
    ensures Separate(Lines(src, 1, n), strd, 4) && Separate(Lines(src, 1, n), strd, 3)
  {
  }

  lemma Walk(src: int, next: int, k: int)
    ensures At(src, next, 0, 0) == src && At(src, next, k + 1, 0) == At(src, next, k, 0) + next
  {
  }

  lemma BlockStep(src: int, next: int, k: int, n: int)
    requires n == 2 || n == 4
    ensures At(src, next, k + n, 0) == At(src, next, k, 0) + n * next
  {
  }

  lemma FilterAt(n: nat, alpha: int, beta: int, u4Bs: nat, tab: seq<U8>, edge: nat)
    requires edge < 4 && BelowFour(u4Bs) && ClipRow(tab) && (n == 2 || n == 4)
    ensures Strength(u4Bs, edge) < 4 && forall k :: 0 <= k < 4 ==> tab[k] <= 25
    ensures forall k :: n * edge <= k < n * edge + n ==>
              NormalFilters(n, alpha, beta, u4Bs, tab)[k]
              == if Strength(u4Bs, edge) == 0 then Off else LumaNormal(alpha, beta, tab[Strength(u4Bs, edge)])
  {
    hide Strength;
  }

  // A block of strength 0 is skipped.
  lemma {:induction false} SkipLines(cur: seq<U8>, before: seq<U8>, lines: seq<int>, step: int, w: int,
      fs: seq<LineFilter>, k: nat, n: nat)
    requires DoneTo(cur, before, lines, step, w, fs, k) && k + n <= |lines| && EdgeFits(|cur|, lines, step, w)
    requires forall m :: k <= m < k + n ==> fs[m] == Off
    ensures DoneTo(cur, before, lines, step, w, fs, k + n)
    decreases n
  {
    hide DoneTo, InLine, Separate, EdgeFits;
    if n > 0 {
      EdgeLine(|cur|, lines, step, w, k);
      LengthsKept(cur, before, lines, step, w, fs, k);
      DoneNext(cur, cur, before, lines, step, w, fs, k);
      SkipLines(cur, before, lines, step, w, fs, k + 1, n - 1);
    }
  }

  lemma LengthsKept(cur: seq<U8>, before: seq<U8>, lines: seq<int>, step: int, w: int, fs: seq<LineFilter>, k: nat)
    requires DoneTo(cur, before, lines, step, w, fs, k)
    ensures |cur| == |before| && |lines| == |fs|
  {
  }

  // Strong filter of a vertical edge of 16 rows.
  method LumaVertBs4(a: array<U8>, src: int, strd: int, alpha: int, beta: int)
    requires EdgeFits(a.Length, Lines(src, strd, 16), 1, 4)
    modifies a
    ensures EdgeDone(a[..], old(a[..]), Lines(src, strd, 16), 1, 4, StrongFilters(4, alpha, beta))
  {
    hide LineDone, DoneTo, EdgeFits, LineFits, Separate, Lines, At, Strength, NormalFilter, LineFilter.Apply;
    ghost var lines, fs := Lines(src, strd, 16), StrongFilters(4, alpha, beta);
    DoneStart(a[..], lines, 1, 4, fs);
    Walk(src, strd, 0);
    var p := src;
    for edge := 0 to 4
      invariant p == At(src, strd, 4 * edge, 0)
      invariant DoneTo(a[..], old(a[..]), lines, 1, 4, fs, 4 * edge)
    {
      var t := p;
      for i := 0 to 4
        invariant t == At(src, strd, 4 * edge + i, 0)
        invariant DoneTo(a[..], old(a[..]), lines, 1, 4, fs, 4 * edge + i)
      {
        ghost var cur := a[..];
        EdgeLine(a.Length, lines, 1, 4, 4 * edge + i);
        StrongLine(a, t - 4, t - 3, t - 2, t - 1, t, t + 1, t + 2, t + 3, alpha, beta, t, 1);
        DoneNext(a[..], cur, old(a[..]), lines, 1, 4, fs, 4 * edge + i);
        Walk(src, strd, 4 * edge + i);
        t := t + strd;
      }
      BlockStep(src, strd, 4 * edge, 4);
      p := p + 4 * strd;
    }
  }

  // The same on 8 rows.
  method LumaVertBs4Mbaff(a: array<U8>, src: int, strd: int, alpha: int, beta: int)
    requires EdgeFits(a.Length, Lines(src, strd, 8), 1, 4)
    modifies a
    ensures EdgeDone(a[..], old(a[..]), Lines(src, strd, 8), 1, 4, StrongFilters(2, alpha, beta))
  {
    hide LineDone, DoneTo, EdgeFits, LineFits, Separate, Lines, At, Strength, NormalFilter, LineFilter.Apply;
    ghost var lines, fs := Lines(src, strd, 8), StrongFilters(2, alpha, beta);
    DoneStart(a[..], lines, 1, 4, fs);
    Walk(src, strd, 0);
    var p := src;
    for edge := 0 to 4
      invariant p == At(src, strd, 2 * edge, 0)
      invariant DoneTo(a[..], old(a[..]), lines, 1, 4, fs, 2 * edge)
    {
      var t := p;
      for i := 0 to 2
        invariant t == At(src, strd, 2 * edge + i, 0)
        invariant DoneTo(a[..], old(a[..]), lines, 1, 4, fs, 2 * edge + i)
      {
        ghost var cur := a[..];
        EdgeLine(a.Length, lines, 1, 4, 2 * edge + i);
        StrongLine(a, t - 4, t - 3, t - 2, t - 1, t, t + 1, t + 2, t + 3, alpha, beta, t, 1);
        DoneNext(a[..], cur, old(a[..]), lines, 1, 4, fs, 2 * edge + i);
        Walk(src, strd, 2 * edge + i);
        t := t + strd;
      }
      BlockStep(src, strd, 2 * edge, 2);
      p := p + 2 * strd;
    }
  }

  // Strong filter of a horizontal edge; p samples are reached from p3.
  method LumaHorzBs4(a: array<U8>, src: int, strd: int, alpha: int, beta: int)
    requires EdgeFits(a.Length, Lines(src, 1, 16), strd, 4)
    modifies a
    ensures EdgeDone(a[..], old(a[..]), Lines(src, 1, 16), strd, 4, StrongFilters(4, alpha, beta))
  {
    hide LineDone, DoneTo, EdgeFits, LineFits, Separate, Lines, At, Strength, NormalFilter, LineFilter.Apply;
    ghost var lines, fs := Lines(src, 1, 16), StrongFilters(4, alpha, beta);
    DoneStart(a[..], lines, strd, 4, fs);
    Walk(src, 1, 0);
    var p, p3 := src, src - 4 * strd;
    for edge := 0 to 4
      invariant p == At(src, 1, 4 * edge, 0) && p3 == p - 4 * strd
      invariant DoneTo(a[..], old(a[..]), lines, strd, 4, fs, 4 * edge)
    {
      var t, r := p, p3;
      for i := 0 to 4
        invariant t == At(src, 1, 4 * edge + i, 0) && r == t - 4 * strd
        invariant DoneTo(a[..], old(a[..]), lines, strd, 4, fs, 4 * edge + i)
      {
        ghost var cur := a[..];
        EdgeLine(a.Length, lines, strd, 4, 4 * edge + i);
        StrongLine(a, r, r + strd, r + 2 * strd, r + 3 * strd, t, t + strd, t + 2 * strd, t + 3 * strd, alpha, beta,
            t, strd);
        DoneNext(a[..], cur, old(a[..]), lines, strd, 4, fs, 4 * edge + i);
        Walk(src, 1, 4 * edge + i);
        t, r := t + 1, r + 1;
      }
      BlockStep(src, 1, 4 * edge, 4);
      p, p3 := p + 4, p3 + 4;
    }
  }

  // Normal filter of a vertical edge, with a strength for every four rows.
  method LumaVertBslt4(a: array<U8>, src: int, strd: int, alpha: int, beta: int, u4Bs: nat, tab: seq<U8>)
    requires EdgeFits(a.Length, Lines(src, strd, 16), 1, 3)
    requires BelowFour(u4Bs) && ClipRow(tab)
    modifies a
    ensures EdgeDone(a[..], old(a[..]), Lines(src, strd, 16), 1, 3, NormalFilters(4, alpha, beta, u4Bs, tab))
  {
    hide LineDone, DoneTo, EdgeFits, LineFits, Separate, Lines, At, Strength, NormalFilter, LineFilter.Apply,
        NormalFilters;
    ghost var lines, fs := Lines(src, strd, 16), NormalFilters(4, alpha, beta, u4Bs, tab);
    DoneStart(a[..], lines, 1, 3, fs);
    Walk(src, strd, 0);
    var p := src;
    for edge := 0 to 4
      invariant p == At(src, strd, 4 * edge, 0)
      invariant DoneTo(a[..], old(a[..]), lines, 1, 3, fs, 4 * edge)
    {
      var bs := Strength(u4Bs, edge);
      FilterAt(4, alpha, beta, u4Bs, tab, edge);
      if bs == 0 {
        SkipLines(a[..], old(a[..]), lines, 1, 3, fs, 4 * edge, 4);
      } else {
        var tc0 := tab[bs];
        var t := p;
        for i := 0 to 4
          invariant t == At(src, strd, 4 * edge + i, 0)
          invariant DoneTo(a[..], old(a[..]), lines, 1, 3, fs, 4 * edge + i)
        {
          ghost var cur := a[..];
          EdgeLine(a.Length, lines, 1, 3, 4 * edge + i);
          NormalLine(a, t - 3, t - 2, t - 1, t, t + 1, t + 2, alpha, beta, tc0, t, 1);
          DoneNext(a[..], cur, old(a[..]), lines, 1, 3, fs, 4 * edge + i);
          Walk(src, strd, 4 * edge + i);
          t := t + strd;
        }
      }
      BlockStep(src, strd, 4 * edge, 4);
      p := p + 4 * strd;
    }
  }

  // The same on 8 rows, with a strength for every two.
  method LumaVertBslt4Mbaff(a: array<U8>, src: int, strd: int, alpha: int, beta: int, u4Bs: nat, tab: seq<U8>)
    requires EdgeFits(a.Length, Lines(src, strd, 8), 1, 3)
    requires BelowFour(u4Bs) && ClipRow(tab)
    modifies a
    ensures EdgeDone(a[..], old(a[..]), Lines(src, strd, 8), 1, 3, NormalFilters(2, alpha, beta, u4Bs, tab))
  {
    hide LineDone, DoneTo, EdgeFits, LineFits, Separate, Lines, At, Strength, NormalFilter, LineFilter.Apply,
        NormalFilters;
    ghost var lines, fs := Lines(src, strd, 8), NormalFilters(2, alpha, beta, u4Bs, tab);
    DoneStart(a[..], lines, 1, 3, fs);
    Walk(src, strd, 0);
    var p := src;
    for edge := 0 to 4
      invariant p == At(src, strd, 2 * edge, 0)
      invariant DoneTo(a[..], old(a[..]), lines, 1, 3, fs, 2 * edge)
    {
      var bs := Strength(u4Bs, edge);
      FilterAt(2, alpha, beta, u4Bs, tab, edge);
      if bs == 0 {
        SkipLines(a[..], old(a[..]), lines, 1, 3, fs, 2 * edge, 2);
      } else {
        var tc0 := tab[bs];
        var t := p;
        for i := 0 to 2
          invariant t == At(src, strd, 2 * edge + i, 0)
          invariant DoneTo(a[..], old(a[..]), lines, 1, 3, fs, 2 * edge + i)
        {
          ghost var cur := a[..];
          EdgeLine(a.Length, lines, 1, 3, 2 * edge + i);
          NormalLine(a, t - 3, t - 2, t - 1, t, t + 1, t + 2, alpha, beta, tc0, t, 1);
          DoneNext(a[..], cur, old(a[..]), lines, 1, 3, fs, 2 * edge + i);
          Walk(src, strd, 2 * edge + i);
          t := t + strd;
        }
      }
      BlockStep(src, strd, 2 * edge, 2);
      p := p + 2 * strd;
    }
  }

  // Normal filter of a horizontal edge.
  method LumaHorzBslt4(a: array<U8>, src: int, strd: int, alpha: int, beta: int, u4Bs: nat, tab: seq<U8>)
    requires EdgeFits(a.Length, Lines(src, 1, 16), strd, 3)
    requires BelowFour(u4Bs) && ClipRow(tab)
    modifies a
    ensures EdgeDone(a[..], old(a[..]), Lines(src, 1, 16), strd, 3, NormalFilters(4, alpha, beta, u4Bs, tab))
  {
    hide LineDone, DoneTo, EdgeFits, LineFits, Separate, Lines, At, Strength, NormalFilter, LineFilter.Apply,
        NormalFilters;
    ghost var lines, fs := Lines(src, 1, 16), NormalFilters(4, alpha, beta, u4Bs, tab);
    DoneStart(a[..], lines, strd, 3, fs);
    Walk(src, 1, 0);
    var p, p2 := src, src - 4 * strd;
    for edge := 0 to 4
      invariant p == At(src, 1, 4 * edge, 0) && p2 == p - 4 * strd
      invariant DoneTo(a[..], old(a[..]), lines, strd, 3, fs, 4 * edge)
    {
      var bs := Strength(u4Bs, edge);
      FilterAt(4, alpha, beta, u4Bs, tab, edge);
      if bs == 0 {
        SkipLines(a[..], old(a[..]), lines, strd, 3, fs, 4 * edge, 4);
      } else {
        var tc0 := tab[bs];
        var t, r := p, p2;
        for i := 0 to 4
          invariant t == At(src, 1, 4 * edge + i, 0) && r == t - 4 * strd
          invariant DoneTo(a[..], old(a[..]), lines, strd, 3, fs, 4 * edge + i)
        {
          ghost var cur := a[..];
          EdgeLine(a.Length, lines, strd, 3, 4 * edge + i);
          NormalLine(a, r + strd, r + 2 * strd, r + 3 * strd, t, t + strd, t + 2 * strd, alpha, beta, tc0, t, strd);
          DoneNext(a[..], cur, old(a[..]), lines, strd, 3, fs, 4 * edge + i);
          Walk(src, 1, 4 * edge + i);
          t, r := t + 1, r + 1;
        }
      }
      BlockStep(src, 1, 4 * edge, 4);
      p, p2 := p + 4, p2 + 4;
    }
  }

  // ---- chroma edges: U and V samples interleaved ----

  function PairLines(src: int, strd: int): (ls: seq<int>)
    ensures |ls| == 16
  {
    seq(16, k => At(src, strd, k / 2, k % 2))
  }

  lemma PairSeparate(src: int, strd: int)
    requires strd >= 8
    ensures Separate(PairLines(src, strd), 2, 2)
  {
    forall i, j | 0 <= i < j < 8 ensures At(src, strd, j, 0) >= At(src, strd, i, 0) + 8 {
      Apart(j - i, strd);
      assert (j - i) * strd == j * strd - i * strd;
    }
  }

  lemma PairLineAt(src: int, strd: int, r: nat)
    requires r < 8
    ensures PairLines(src, strd)[2 * r] == At(src, strd, r, 0)
    ensures PairLines(src, strd)[2 * r + 1] == At(src, strd, r, 0) + 1
  {
  }

  function PairStrongFilters(alphaCb: int, betaCb: int, alphaCr: int, betaCr: int): (fs: seq<LineFilter>)
    ensures |fs| == 16
  {
    seq(16, k => if k % 2 == 0 then PairStrong(alphaCb, betaCb) else PairStrong(alphaCr, betaCr))
  }

  function PairNormalFilter(alpha: int, beta: int, u4Bs: nat, tab: seq<U8>, edge: nat): LineFilter
    requires edge < 4 && BelowFour(u4Bs) && ClipRow(tab)
  {
    var bs := Strength(u4Bs, edge);
    if bs == 0 then Off else PairNormal(alpha, beta, tab[bs])
  }

  function PairNormalFilters(alphaCb: int, betaCb: int, alphaCr: int, betaCr: int, u4Bs: nat, tabCb: seq<U8>,
      tabCr: seq<U8>): (fs: seq<LineFilter>)
    requires BelowFour(u4Bs) && ClipRow(tabCb) && ClipRow(tabCr)
    ensures |fs| == 16
  {
    seq(16, k requires 0 <= k < 16 =>
      if k % 2 == 0 then PairNormalFilter(alphaCb, betaCb, u4Bs, tabCb, k / 4)
      else PairNormalFilter(alphaCr, betaCr, u4Bs, tabCr, k / 4))
  }

  lemma PairFilterAt(alphaCb: int, betaCb: int, alphaCr: int, betaCr: int, u4Bs: nat, tabCb: seq<U8>, tabCr: seq<U8>,
      edge: nat)
    requires edge < 4 && BelowFour(u4Bs) && ClipRow(tabCb) && ClipRow(tabCr)
    ensures Strength(u4Bs, edge) < 4 && forall k :: 0 <= k < 4 ==> tabCb[k] <= 25 && tabCr[k] <= 25
    ensures var fs, bs := PairNormalFilters(alphaCb, betaCb, alphaCr, betaCr, u4Bs, tabCb, tabCr), Strength(u4Bs, edge);
            && (bs == 0 ==> forall k :: 4 * edge <= k < 4 * edge + 4 ==> fs[k] == Off)
            && (bs != 0 ==> forall i :: 0 <= i < 2 ==>
                  && fs[4 * edge + 2 * i] == PairNormal(alphaCb, betaCb, tabCb[bs])
                  && fs[4 * edge + 2 * i + 1] == PairNormal(alphaCr, betaCr, tabCr[bs]))
  {
    hide Strength;
  }

  // Both planes with one pair of thresholds.
  method ChromaVertBs4Bp(a: array<U8>, src: int, strd: int, alpha: int, beta: int)
    requires EdgeFits(a.Length, PairLines(src, strd), 2, 2)
    modifies a
    ensures EdgeDone(a[..], old(a[..]), PairLines(src, strd), 2, 2, PairStrongFilters(alpha, beta, alpha, beta))
  {
    hide LineDone, DoneTo, EdgeFits, LineFits, Separate, Lines, At, Strength, NormalFilter, LineFilter.Apply, PairLines;
    ghost var lines, fs := PairLines(src, strd), PairStrongFilters(alpha, beta, alpha, beta);
    DoneStart(a[..], lines, 2, 2, fs);
    Walk(src, strd, 0);
    var pu, pv := src, src + 1;
    for edge := 0 to 4
      invariant pu == At(src, strd, 2 * edge, 0) && pv == pu + 1
      invariant DoneTo(a[..], old(a[..]), lines, 2, 2, fs, 4 * edge)
    {
      var u, v := pu, pv;
      for i := 0 to 2
        invariant u == At(src, strd, 2 * edge + i, 0) && v == u + 1
        invariant DoneTo(a[..], old(a[..]), lines, 2, 2, fs, 4 * edge + 2 * i)
      {
        PairLineAt(src, strd, 2 * edge + i);
        ghost var cur;
        cur := a[..];
        EdgeLine(a.Length, lines, 2, 2, 4 * edge + 2 * i);
        PairStrongLine(a, u - 4, u - 2, u, u + 2, alpha, beta, u, 2);
        DoneNext(a[..], cur, old(a[..]), lines, 2, 2, fs, 4 * edge + 2 * i);
        cur := a[..];
        EdgeLine(a.Length, lines, 2, 2, 4 * edge + 2 * i + 1);
        PairStrongLine(a, v - 4, v - 2, v, v + 2, alpha, beta, v, 2);
        DoneNext(a[..], cur, old(a[..]), lines, 2, 2, fs, 4 * edge + 2 * i + 1);
        Walk(src, strd, 2 * edge + i);
        u, v := u + strd, v + strd;
      }
      BlockStep(src, strd, 2 * edge, 2);
      pu, pv := pu + 2 * strd, pv + 2 * strd;
    }
  }

  // Thresholds for each plane.
  method ChromaVertBs4(a: array<U8>, src: int, strd: int, alphaCb: int, betaCb: int, alphaCr: int, betaCr: int)
    requires EdgeFits(a.Length, PairLines(src, strd), 2, 2)
    modifies a
    ensures EdgeDone(a[..], old(a[..]), PairLines(src, strd), 2, 2, PairStrongFilters(alphaCb, betaCb, alphaCr, betaCr))
  {
    hide LineDone, DoneTo, EdgeFits, LineFits, Separate, Lines, At, Strength, NormalFilter, LineFilter.Apply, PairLines;
    ghost var lines, fs := PairLines(src, strd), PairStrongFilters(alphaCb, betaCb, alphaCr, betaCr);
    DoneStart(a[..], lines, 2, 2, fs);
    Walk(src, strd, 0);
    var pu, pv := src, src + 1;
    for edge := 0 to 4
      invariant pu == At(src, strd, 2 * edge, 0) && pv == pu + 1
      invariant DoneTo(a[..], old(a[..]), lines, 2, 2, fs, 4 * edge)
    {
      var u, v := pu, pv;
      for i := 0 to 2
        invariant u == At(src, strd, 2 * edge + i, 0) && v == u + 1
        invariant DoneTo(a[..], old(a[..]), lines, 2, 2, fs, 4 * edge + 2 * i)
      {
        PairLineAt(src, strd, 2 * edge + i);
        ghost var cur;
        cur := a[..];
        EdgeLine(a.Length, lines, 2, 2, 4 * edge + 2 * i);
        PairStrongLine(a, u - 4, u - 2, u, u + 2, alphaCb, betaCb, u, 2);
        DoneNext(a[..], cur, old(a[..]), lines, 2, 2, fs, 4 * edge + 2 * i);
        cur := a[..];
        EdgeLine(a.Length, lines, 2, 2, 4 * edge + 2 * i + 1);
        PairStrongLine(a, v - 4, v - 2, v, v + 2, alphaCr, betaCr, v, 2);
        DoneNext(a[..], cur, old(a[..]), lines, 2, 2, fs, 4 * edge + 2 * i + 1);
        Walk(src, strd, 2 * edge + i);
        u, v := u + strd, v + strd;
      }
      BlockStep(src, strd, 2 * edge, 2);
      pu, pv := pu + 2 * strd, pv + 2 * strd;
    }
  }

  // Normal filter, both planes with one pair of thresholds and one table row.
  method ChromaVertBslt4Bp(a: array<U8>, src: int, strd: int, alpha: int, beta: int, u4Bs: nat, tab: seq<U8>)
    requires EdgeFits(a.Length, PairLines(src, strd), 2, 2)
    requires BelowFour(u4Bs) && ClipRow(tab)
    modifies a
    ensures EdgeDone(a[..], old(a[..]), PairLines(src, strd), 2, 2,
                     PairNormalFilters(alpha, beta, alpha, beta, u4Bs, tab, tab))
  {
    hide LineDone, DoneTo, EdgeFits, LineFits, Separate, Lines, At, Strength, NormalFilter, LineFilter.Apply,
        PairLines, PairNormalFilters;
    ghost var lines, fs := PairLines(src, strd), PairNormalFilters(alpha, beta, alpha, beta, u4Bs, tab, tab);
    DoneStart(a[..], lines, 2, 2, fs);
    Walk(src, strd, 0);
    var pu, pv := src, src + 1;
    for edge := 0 to 4
      invariant pu == At(src, strd, 2 * edge, 0) && pv == pu + 1
      invariant DoneTo(a[..], old(a[..]), lines, 2, 2, fs, 4 * edge)
    {
      var bs := Strength(u4Bs, edge);
      PairFilterAt(alpha, beta, alpha, beta, u4Bs, tab, tab, edge);
      if bs == 0 {
        SkipLines(a[..], old(a[..]), lines, 2, 2, fs, 4 * edge, 4);
      } else {
        var tc0 := tab[bs];
        var u, v := pu, pv;
        for i := 0 to 2
          invariant u == At(src, strd, 2 * edge + i, 0) && v == u + 1
          invariant DoneTo(a[..], old(a[..]), lines, 2, 2, fs, 4 * edge + 2 * i)
        {
          PairLineAt(src, strd, 2 * edge + i);
          ghost var cur;
          cur := a[..];
          EdgeLine(a.Length, lines, 2, 2, 4 * edge + 2 * i);
          PairNormalLine(a, u - 4, u - 2, u, u + 2, alpha, beta, tc0, u, 2);
          DoneNext(a[..], cur, old(a[..]), lines, 2, 2, fs, 4 * edge + 2 * i);
          cur := a[..];
          EdgeLine(a.Length, lines, 2, 2, 4 * edge + 2 * i + 1);
          PairNormalLine(a, v - 4, v - 2, v, v + 2, alpha, beta, tc0, v, 2);
          DoneNext(a[..], cur, old(a[..]), lines, 2, 2, fs, 4 * edge + 2 * i + 1);
          Walk(src, strd, 2 * edge + i);
          u, v := u + strd, v + strd;
        }
      }
      BlockStep(src, strd, 2 * edge, 2);
      pu, pv := pu + 2 * strd, pv + 2 * strd;
    }
  }

  // Normal filter, thresholds and table row for each plane.
  method ChromaVertBslt4(a: array<U8>, src: int, strd: int, alphaCb: int, betaCb: int, alphaCr: int, betaCr: int,
      u4Bs: nat, tabCb: seq<U8>, tabCr: seq<U8>)
    requires EdgeFits(a.Length, PairLines(src, strd), 2, 2)
    requires BelowFour(u4Bs) && ClipRow(tabCb) && ClipRow(tabCr)
    modifies a
    ensures EdgeDone(a[..], old(a[..]), PairLines(src, strd), 2, 2,
                     PairNormalFilters(alphaCb, betaCb, alphaCr, betaCr, u4Bs, tabCb, tabCr))
  {
    hide LineDone, DoneTo, EdgeFits, LineFits, Separate, Lines, At, Strength, NormalFilter, LineFilter.Apply,
        PairLines, PairNormalFilters;
    ghost var lines := PairLines(src, strd);
    ghost var fs := PairNormalFilters(alphaCb, betaCb, alphaCr, betaCr, u4Bs, tabCb, tabCr);
    DoneStart(a[..], lines, 2, 2, fs);
    Walk(src, strd, 0);
    var pu, pv := src, src + 1;
    for edge := 0 to 4
      invariant pu == At(src, strd, 2 * edge, 0) && pv == pu + 1
      invariant DoneTo(a[..], old(a[..]), lines, 2, 2, fs, 4 * edge)
    {
      var bs := Strength(u4Bs, edge);
      PairFilterAt(alphaCb, betaCb, alphaCr, betaCr, u4Bs, tabCb, tabCr, edge);
      if bs == 0 {
        SkipLines(a[..], old(a[..]), lines, 2, 2, fs, 4 * edge, 4);
      } else {
        var tcb0, tcr0 := tabCb[bs], tabCr[bs];
        var u, v := pu, pv;
        for i := 0 to 2
          invariant u == At(src, strd, 2 * edge + i, 0) && v == u + 1
          invariant DoneTo(a[..], old(a[..]), lines, 2, 2, fs, 4 * edge + 2 * i)
        {
          PairLineAt(src, strd, 2 * edge + i);
          ghost var cur;
          cur := a[..];
          EdgeLine(a.Length, lines, 2, 2, 4 * edge + 2 * i);
          PairNormalLine(a, u - 4, u - 2, u, u + 2, alphaCb, betaCb, tcb0, u, 2);
          DoneNext(a[..], cur, old(a[..]), lines, 2, 2, fs, 4 * edge + 2 * i);
          cur := a[..];
          EdgeLine(a.Length, lines, 2, 2, 4 * edge + 2 * i + 1);
          PairNormalLine(a, v - 4, v - 2, v, v + 2, alphaCr, betaCr, tcr0, v, 2);
          DoneNext(a[..], cur, old(a[..]), lines, 2, 2, fs, 4 * edge + 2 * i + 1);
          Walk(src, strd, 2 * edge + i);
          u, v := u + strd, v + strd;
        }
      }
      BlockStep(src, strd, 2 * edge, 2);
      pu, pv := pu + 2 * strd, pv + 2 * strd;
    }
  }
}
