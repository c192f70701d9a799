// The deblocking functions that repeat one another compute the same.
module DeblockEquivalences {
  import opened Pixels
  import opened Deblocking
  import opened DeblockEdges

  lemma ShownAlike(x: seq<U8>, y: seq<U8>, i: int, step: int, w: int, l: Line, k: nat)
    requires Shows(x, i, step, w, l) && Shows(y, i, step, w, l) && InLine(k, i, step, w) && k < |x| == |y|
    ensures x[k] == y[k]
  {
    assert Sample(x, k) == Sample(y, k);
  }

  // The result of filtering an edge is determined.
  lemma EdgeUnique(x: seq<U8>, y: seq<U8>, before: seq<U8>, lines: seq<int>, step: int, w: int, fs: seq<LineFilter>)
    requires EdgeDone(x, before, lines, step, w, fs) && EdgeDone(y, before, lines, step, w, fs)
    ensures x == y
  {
    hide LineFilter.Apply, LineAt, Shows, InLine, Sample;
    forall i | 0 <= i < |before| ensures x[i] == y[i] {
      if Touched(i, lines, step, w, |lines|) {
        var m :| 0 <= m < |lines| && InLine(i, lines[m], step, w);
        ShownAlike(x, y, lines[m], step, w, fs[m].Apply(LineAt(before, lines[m], step, w)), i);
      }
    }
  }

  // A line clear of the edge keeps its samples.
  lemma LeftAlone(after: seq<U8>, before: seq<U8>, lines: seq<int>, step: int, w: int, fs: seq<LineFilter>, i: int,
      l: Line)
    requires EdgeDone(after, before, lines, step, w, fs)
    requires forall m, x {:trigger InLine(x, lines[m], step, w)} :: 0 <= m < |lines| ==>
               !(InLine(x, i, step, w) && InLine(x, lines[m], step, w))
    ensures LineAt(after, i, step, w) == LineAt(before, i, step, w)
    ensures Shows(before, i, step, w, l) ==> Shows(after, i, step, w, l)
  {
    hide LineFilter.Apply;
    forall x | InLine(x, i, step, w) ensures Sample(after, x) == Sample(before, x) {
      if 0 <= x < |after| {
        assert !Touched(x, lines, step, w, |lines|);
      }
    }
    assert forall x :: InLine(x, i, step, w) ==> Sample(after, x) == Sample(before, x);
  }

  lemma PartsApart(lines: seq<int>, step: int, w: int, n: nat, m: nat)
    requires n <= |lines| && m < |lines| && Separate(lines, step, w)
    ensures m < n ==> forall k, x {:trigger InLine(x, lines[n..][k], step, w)} :: 0 <= k < |lines| - n ==>
                        !(InLine(x, lines[m], step, w) && InLine(x, lines[n..][k], step, w))
    ensures m >= n ==> forall k, x {:trigger InLine(x, lines[..n][k], step, w)} :: 0 <= k < n ==>
                         !(InLine(x, lines[m], step, w) && InLine(x, lines[..n][k], step, w))
  {
    hide InLine;
    forall k, x {:trigger InLine(x, lines[n..][k], step, w)} | m < n && 0 <= k < |lines| - n
      ensures !(InLine(x, lines[m], step, w) && InLine(x, lines[n..][k], step, w))
    {
      assert lines[n..][k] == lines[n + k];
    }
    forall k, x {:trigger InLine(x, lines[..n][k], step, w)} | m >= n && 0 <= k < n
      ensures !(InLine(x, lines[m], step, w) && InLine(x, lines[..n][k], step, w))
    {
      assert lines[..n][k] == lines[k];
    }
  }

  // Filtering an edge in two parts, one after the other.
  lemma TwoParts(last: seq<U8>, middle: seq<U8>, first: seq<U8>, lines: seq<int>, step: int, w: int,
      fs: seq<LineFilter>, n: nat)
    requires |lines| == |fs| && n <= |lines| && Separate(lines, step, w)
    requires EdgeDone(middle, first, lines[..n], step, w, fs[..n])
    requires EdgeDone(last, middle, lines[n..], step, w, fs[n..])
    ensures EdgeDone(last, first, lines, step, w, fs)
  {
    hide LineFilter.Apply, LineAt, Shows, InLine, Sample;
    forall m {:trigger lines[m]} | 0 <= m < |lines|
      ensures Shows(last, lines[m], step, w, fs[m].Apply(LineAt(first, lines[m], step, w)))
    {
      if m < n {
        assert lines[..n][m] == lines[m] && fs[..n][m] == fs[m];
        assert Shows(middle, lines[m], step, w, fs[m].Apply(LineAt(first, lines[m], step, w)));
        PartsApart(lines, step, w, n, m);
        LeftAlone(last, middle, lines[n..], step, w, fs[n..], lines[m], fs[m].Apply(LineAt(first, lines[m], step, w)));
      } else {
        assert lines[n..][m - n] == lines[m] && fs[n..][m - n] == fs[m];
        assert Shows(last, lines[m], step, w, fs[m].Apply(LineAt(middle, lines[m], step, w)));
        PartsApart(lines, step, w, n, m);
        LeftAlone(middle, first, lines[..n], step, w, fs[..n], lines[m], LineAt(first, lines[m], step, w));
      }
    }
    forall x {:trigger last[x]} | 0 <= x < |last| && !Touched(x, lines, step, w, |lines|)
      ensures last[x] == first[x]
    {
      forall m {:trigger lines[..n][m]} | 0 <= m < n ensures !InLine(x, lines[..n][m], step, w) {
        assert lines[..n][m] == lines[m];
      }
      forall m {:trigger lines[n..][m]} | 0 <= m < |lines| - n ensures !InLine(x, lines[n..][m], step, w) {
        assert lines[n..][m] == lines[n + m];
      }
      assert middle[x] == first[x];
    }
  }

  // ---- two calls on 8 rows are one call on 16 ----

  lemma HalfLines(src: int, next: int)
    ensures Lines(src, next, 8) == Lines(src, next, 16)[..8]
    ensures Lines(src + 8 * next, next, 8) == Lines(src, next, 16)[8..]
  {
    forall k | 0 <= k < 8 ensures Lines(src + 8 * next, next, 8)[k] == Lines(src, next, 16)[8..][k] {
      assert Lines(src, next, 16)[8..][k] == Lines(src, next, 16)[8 + k];
      assert (8 + k) * next == 8 * next + k * next;
    }
  }

  lemma HalfFits(length: nat, src: int, strd: int, step: int, w: int)
    requires EdgeFits(length, Lines(src, strd, 16), step, w)
    ensures EdgeFits(length, Lines(src, strd, 8), step, w) && EdgeFits(length, Lines(src + 8 * strd, strd, 8), step, w)
  {
    hide LineFits, InLine, Lines;
    HalfLines(src, strd);
    var all := Lines(src, strd, 16);
    assert forall k :: 0 <= k < 8 ==> all[..8][k] == all[k] && all[8..][k] == all[8 + k];
  }

  method StrongHalves(whole: array<U8>, halves: array<U8>, src: int, strd: int, alpha: int, beta: int)
    requires whole != halves && whole[..] == halves[..] && EdgeFits(whole.Length, Lines(src, strd, 16), 1, 4)
    modifies whole, halves
    ensures whole[..] == halves[..]
    ensures EdgeDone(whole[..], old(whole[..]), Lines(src, strd, 16), 1, 4, StrongFilters(4, alpha, beta))
  {
    hide DoneTo, EdgeFits, Separate, Lines;
    ghost var before, lines, fs := whole[..], Lines(src, strd, 16), StrongFilters(4, alpha, beta);
    EdgesApart(whole.Length, lines, 1, 4);
    HalfLines(src, strd);
    HalfFits(whole.Length, src, strd, 1, 4);
    assert StrongFilters(2, alpha, beta) == fs[..8] == fs[8..];
    LumaVertBs4(whole, src, strd, alpha, beta);
    LumaVertBs4Mbaff(halves, src, strd, alpha, beta);
    ghost var middle := halves[..];
    LumaVertBs4Mbaff(halves, src + 8 * strd, strd, alpha, beta);
    TwoParts(halves[..], middle, before, lines, 1, 4, fs, 8);
    EdgeUnique(whole[..], halves[..], before, lines, 1, 4, fs);
  }

  lemma EdgesApart(length: nat, lines: seq<int>, step: int, w: int)
    requires EdgeFits(length, lines, step, w)
    ensures Separate(lines, step, w)
  {
  }

  // The strengths of the upper and the lower half, each given twice.
  function Pack(b0: nat, b1: nat, b2: nat, b3: nat): nat {
    b0 * 0x100_0000 + b1 * 0x1_0000 + b2 * 0x100 + b3
  }

  function UpperBs(u4Bs: nat): nat { Pack(Strength(u4Bs, 0), Strength(u4Bs, 0), Strength(u4Bs, 1), Strength(u4Bs, 1)) }

  function LowerBs(u4Bs: nat): nat { Pack(Strength(u4Bs, 2), Strength(u4Bs, 2), Strength(u4Bs, 3), Strength(u4Bs, 3)) }

  lemma Quotient(q: nat, d: nat, r: nat)
    requires r < d && (d == 0x100_0000 || d == 0x1_0000 || d == 0x100)
    ensures (q * d + r) / d == q && (q * d + r) % d == r
  {
  }

  lemma Unpack(b0: nat, b1: nat, b2: nat, b3: nat)
    requires b0 < 4 && b1 < 4 && b2 < 4 && b3 < 4
    ensures var u := Pack(b0, b1, b2, b3);
            && BelowFour(u) && Strength(u, 0) == b0 && Strength(u, 1) == b1
            && Strength(u, 2) == b2 && Strength(u, 3) == b3
  {
    var u := Pack(b0, b1, b2, b3);
    assert u / 0x100_0000 == b0 by { Quotient(b0, 0x100_0000, b1 * 0x1_0000 + b2 * 0x100 + b3); }
    assert u / 0x1_0000 == b0 * 256 + b1 by { Quotient(b0 * 256 + b1, 0x1_0000, b2 * 0x100 + b3); }
    assert u / 0x100 == b0 * 0x1_0000 + b1 * 256 + b2 by { Quotient(b0 * 0x1_0000 + b1 * 256 + b2, 0x100, b3); }
    assert u % 0x100 == b3 by { Quotient(b0 * 0x1_0000 + b1 * 256 + b2, 0x100, b3); }
    Quotient(b0, 256, b1);
    Quotient(b0 * 256 + b1, 256, b2);
    assert forall edge :: 0 <= edge < 4 ==> Strength(u, edge) == [b0, b1, b2, b3][edge];
  }

  lemma HalfFilters(alpha: int, beta: int, u4Bs: nat, tab: seq<U8>)
    requires BelowFour(u4Bs) && ClipRow(tab)
    ensures BelowFour(UpperBs(u4Bs)) && BelowFour(LowerBs(u4Bs))
    ensures NormalFilters(2, alpha, beta, UpperBs(u4Bs), tab) == NormalFilters(4, alpha, beta, u4Bs, tab)[..8]
    ensures NormalFilters(2, alpha, beta, LowerBs(u4Bs), tab) == NormalFilters(4, alpha, beta, u4Bs, tab)[8..]
  {
    hide Strength, Pack;
    Unpack(Strength(u4Bs, 0), Strength(u4Bs, 0), Strength(u4Bs, 1), Strength(u4Bs, 1));
    Unpack(Strength(u4Bs, 2), Strength(u4Bs, 2), Strength(u4Bs, 3), Strength(u4Bs, 3));
    var fs := NormalFilters(4, alpha, beta, u4Bs, tab);
    forall k | 0 <= k < 8
      ensures NormalFilters(2, alpha, beta, UpperBs(u4Bs), tab)[k] == fs[..8][k]
      ensures NormalFilters(2, alpha, beta, LowerBs(u4Bs), tab)[k] == fs[8..][k]
    {
      assert fs[..8][k] == fs[k] && fs[8..][k] == fs[8 + k];
    }
  }

  method NormalHalves(whole: array<U8>, halves: array<U8>, src: int, strd: int, alpha: int, beta: int, u4Bs: nat,
      tab: seq<U8>)
    requires whole != halves && whole[..] == halves[..] && EdgeFits(whole.Length, Lines(src, strd, 16), 1, 3)
    requires BelowFour(u4Bs) && ClipRow(tab)
    modifies whole, halves
    ensures whole[..] == halves[..]
    ensures EdgeDone(whole[..], old(whole[..]), Lines(src, strd, 16), 1, 3, NormalFilters(4, alpha, beta, u4Bs, tab))
  {
    hide DoneTo, EdgeFits, Separate, Lines, NormalFilters, UpperBs, LowerBs, BelowFour;
    ghost var before, lines, fs := whole[..], Lines(src, strd, 16), NormalFilters(4, alpha, beta, u4Bs, tab);
    EdgesApart(whole.Length, lines, 1, 3);
    HalfLines(src, strd);
    HalfFits(whole.Length, src, strd, 1, 3);
    HalfFilters(alpha, beta, u4Bs, tab);
    LumaVertBslt4(whole, src, strd, alpha, beta, u4Bs, tab);
    LumaVertBslt4Mbaff(halves, src, strd, alpha, beta, UpperBs(u4Bs), tab);
    ghost var middle := halves[..];
    LumaVertBslt4Mbaff(halves, src + 8 * strd, strd, alpha, beta, LowerBs(u4Bs), tab);
    TwoParts(halves[..], middle, before, lines, 1, 3, fs, 8);
    EdgeUnique(whole[..], halves[..], before, lines, 1, 3, fs);
  }

  // ---- one pair of thresholds, given twice ----

  method ChromaStrongAlike(one: array<U8>, two: array<U8>, src: int, strd: int, alpha: int, beta: int)
    requires one != two && one[..] == two[..] && EdgeFits(one.Length, PairLines(src, strd), 2, 2)
    modifies one, two
    ensures one[..] == two[..]
    ensures EdgeDone(one[..], old(one[..]), PairLines(src, strd), 2, 2, PairStrongFilters(alpha, beta, alpha, beta))
  {
    hide DoneTo, EdgeFits, PairLines;
    ghost var before := one[..];
    ChromaVertBs4Bp(one, src, strd, alpha, beta);
    ChromaVertBs4(two, src, strd, alpha, beta, alpha, beta);
    EdgeUnique(one[..], two[..], before, PairLines(src, strd), 2, 2, PairStrongFilters(alpha, beta, alpha, beta));
  }

  method ChromaNormalAlike(one: array<U8>, two: array<U8>, src: int, strd: int, alpha: int, beta: int, u4Bs: nat,
      tab: seq<U8>)
    requires one != two && one[..] == two[..] && EdgeFits(one.Length, PairLines(src, strd), 2, 2)
    requires BelowFour(u4Bs) && ClipRow(tab)
    modifies one, two
    ensures one[..] == two[..]
    ensures EdgeDone(one[..], old(one[..]), PairLines(src, strd), 2, 2,
                     PairNormalFilters(alpha, beta, alpha, beta, u4Bs, tab, tab))
  {
    hide DoneTo, EdgeFits, PairLines, BelowFour, PairNormalFilters;
    ghost var before := one[..];
    ChromaVertBslt4Bp(one, src, strd, alpha, beta, u4Bs, tab);
    ChromaVertBslt4(two, src, strd, alpha, beta, alpha, beta, u4Bs, tab, tab);
    EdgeUnique(one[..], two[..], before, PairLines(src, strd), 2, 2,
        PairNormalFilters(alpha, beta, alpha, beta, u4Bs, tab, tab));
  }

  // ---- a horizontal edge is a vertical edge of the transposed plane ----

  // The 16 lines across the vertical edge at pa are the columns across the
  // horizontal edge at pb.
  ghost predicate Transposed(a: seq<U8>, pa: int, sa: int, b: seq<U8>, pb: int, sb: int, w: int) {
    forall k, c {:trigger At(pa, sa, k, c), At(pb, sb, c, k)} :: 0 <= k < 16 && -w <= c < w ==>
      Sample(a, At(pa, sa, k, c)) == Sample(b, At(pb, sb, c, k))
  }

  lemma SameSpot(a: seq<U8>, pa: int, sa: int, b: seq<U8>, pb: int, sb: int, w: int, k: int, c: int)
    requires Transposed(a, pa, sa, b, pb, sb, w) && 0 <= k < 16 && -w <= c < w
    ensures Sample(a, At(pa, sa, k, 0) + c) == Sample(b, At(pb, 1, k, 0) + c * sb)
  {
    assert At(pa, sa, k, c) == At(pa, sa, k, 0) + c && At(pb, sb, c, k) == At(pb, 1, k, 0) + c * sb;
  }

  lemma SameLines(a: seq<U8>, pa: int, sa: int, b: seq<U8>, pb: int, sb: int, w: int, k: int)
    requires Transposed(a, pa, sa, b, pb, sb, w) && 0 <= k < 16 && (w == 3 || w == 4)
    ensures LineAt(a, At(pa, sa, k, 0), 1, w) == LineAt(b, At(pb, 1, k, 0), sb, w)
  {
    hide Transposed, Sample, At;
    SameSpot(a, pa, sa, b, pb, sb, w, k, -3);
    SameSpot(a, pa, sa, b, pb, sb, w, k, -2);
    SameSpot(a, pa, sa, b, pb, sb, w, k, -1);
    SameSpot(a, pa, sa, b, pb, sb, w, k, 0);
    SameSpot(a, pa, sa, b, pb, sb, w, k, 1);
    SameSpot(a, pa, sa, b, pb, sb, w, k, 2);
    if w == 4 {
      SameSpot(a, pa, sa, b, pb, sb, w, k, -4);
      SameSpot(a, pa, sa, b, pb, sb, w, k, 3);
    }
  }

  // Lines that show the same samples are transposed.
  lemma FromLines(a: seq<U8>, pa: int, sa: int, b: seq<U8>, pb: int, sb: int, w: int, ls: seq<Line>)
    requires |ls| == 16 && (w == 3 || w == 4)
    requires forall k :: 0 <= k < 16 ==>
               Shows(a, At(pa, sa, k, 0), 1, w, ls[k]) && Shows(b, At(pb, 1, k, 0), sb, w, ls[k])
    ensures Transposed(a, pa, sa, b, pb, sb, w)
  {
    hide Sample;
    forall k, c {:trigger At(pa, sa, k, c), At(pb, sb, c, k)} | 0 <= k < 16 && -w <= c < w
      ensures Sample(a, At(pa, sa, k, c)) == Sample(b, At(pb, sb, c, k))
    {
      assert At(pa, sa, k, c) == At(pa, sa, k, 0) + c && At(pb, sb, c, k) == At(pb, 1, k, 0) + c * sb;
      assert Shows(a, At(pa, sa, k, 0), 1, w, ls[k]) && Shows(b, At(pb, 1, k, 0), sb, w, ls[k]);
    }
  }

  lemma StaysTransposed(a': seq<U8>, a: seq<U8>, pa: int, sa: int, b': seq<U8>, b: seq<U8>, pb: int, sb: int, w: int,
      fs: seq<LineFilter>)
    requires Transposed(a, pa, sa, b, pb, sb, w) && (w == 3 || w == 4) && |fs| == 16
    requires EdgeDone(a', a, Lines(pa, sa, 16), 1, w, fs) && EdgeDone(b', b, Lines(pb, 1, 16), sb, w, fs)
    ensures Transposed(a', pa, sa, b', pb, sb, w)
  {
    hide Transposed, Shows, LineAt, LineFilter.Apply, At;
    var ls := seq(16, k requires 0 <= k < 16 => fs[k].Apply(LineAt(a, At(pa, sa, k, 0), 1, w)));
    forall k | 0 <= k < 16
      ensures Shows(a', At(pa, sa, k, 0), 1, w, ls[k]) && Shows(b', At(pb, 1, k, 0), sb, w, ls[k])
    {
      assert Lines(pa, sa, 16)[k] == At(pa, sa, k, 0) && Lines(pb, 1, 16)[k] == At(pb, 1, k, 0);
      SameLines(a, pa, sa, b, pb, sb, w, k);
    }
    FromLines(a', pa, sa, b', pb, sb, w, ls);
  }

  method StrongTransposed(a: array<U8>, pa: int, sa: int, b: array<U8>, pb: int, sb: int, alpha: int, beta: int)
    requires a != b && EdgeFits(a.Length, Lines(pa, sa, 16), 1, 4) && EdgeFits(b.Length, Lines(pb, 1, 16), sb, 4)
    requires Transposed(a[..], pa, sa, b[..], pb, sb, 4)
    modifies a, b
    ensures Transposed(a[..], pa, sa, b[..], pb, sb, 4)
    ensures EdgeDone(a[..], old(a[..]), Lines(pa, sa, 16), 1, 4, StrongFilters(4, alpha, beta))
    ensures EdgeDone(b[..], old(b[..]), Lines(pb, 1, 16), sb, 4, StrongFilters(4, alpha, beta))
  {
    hide DoneTo, EdgeFits, Lines, Transposed;
    ghost var a0, b0 := a[..], b[..];
    LumaVertBs4(a, pa, sa, alpha, beta);
    LumaHorzBs4(b, pb, sb, alpha, beta);
    StaysTransposed(a[..], a0, pa, sa, b[..], b0, pb, sb, 4, StrongFilters(4, alpha, beta));
  }

  method NormalTransposed(a: array<U8>, pa: int, sa: int, b: array<U8>, pb: int, sb: int, alpha: int, beta: int,
      u4Bs: nat, tab: seq<U8>)
    requires a != b && EdgeFits(a.Length, Lines(pa, sa, 16), 1, 3) && EdgeFits(b.Length, Lines(pb, 1, 16), sb, 3)
    requires Transposed(a[..], pa, sa, b[..], pb, sb, 3) && BelowFour(u4Bs) && ClipRow(tab)
    modifies a, b
    ensures Transposed(a[..], pa, sa, b[..], pb, sb, 3)
    ensures EdgeDone(a[..], old(a[..]), Lines(pa, sa, 16), 1, 3, NormalFilters(4, alpha, beta, u4Bs, tab))
    ensures EdgeDone(b[..], old(b[..]), Lines(pb, 1, 16), sb, 3, NormalFilters(4, alpha, beta, u4Bs, tab))
  {
    hide DoneTo, EdgeFits, Lines, Transposed, BelowFour, NormalFilters;
    ghost var a0, b0 := a[..], b[..];
    LumaVertBslt4(a, pa, sa, alpha, beta, u4Bs, tab);
    LumaHorzBslt4(b, pb, sb, alpha, beta, u4Bs, tab);
    StaysTransposed(a[..], a0, pa, sa, b[..], b0, pb, sb, 3, NormalFilters(4, alpha, beta, u4Bs, tab));
  }
}
