// What the interpolated samples are, in numbers: which samples a position lies
// between, how they are rounded, and what the filter does to smooth pictures.
module InterpQuarters {
  import opened Pixels
  import opened Interpolation
  import opened InterpKernels
  import opened InterpCross

  // ---- the half samples ----

  function Cubic(a: int, b: int, c: int, d: int, t: int): int {
    a + b * t + c * (t * t) + d * (t * t * t)
  }

  // Six values of a cubic polynomial, two apart, give its value in the middle.
  predicate CubicAt(v: int -> int, at: int, a: int, b: int, c: int, d: int) {
    forall k :: -2 <= k <= 3 ==> v(at + k) == Cubic(a, b, c, d, 2 * k - 1)
  }

  lemma TapOfCubic(a: int, b: int, c: int, d: int)
    ensures Tap(Cubic(a, b, c, d, -5), Cubic(a, b, c, d, -3), Cubic(a, b, c, d, -1),
                Cubic(a, b, c, d, 1), Cubic(a, b, c, d, 3), Cubic(a, b, c, d, 5)) == 32 * a
  {
  }

  lemma SumOfCubic(s: Ref, r: int, c: int, a: int, b: int, d: int, e: int)
    ensures CubicAt(k => s.Sample(r, k), c, a, b, d, e) ==> HorzSum(s, r, c) == 32 * a
    ensures CubicAt(k => s.Sample(k, c), r, a, b, d, e) ==> VertSum(s, r, c) == 32 * a
  {
    hide Tap, Cubic, Ref.Sample;
    TapOfCubic(a, b, d, e);
    if CubicAt(k => s.Sample(r, k), c, a, b, d, e) {
      var v := k => s.Sample(r, k);
      assert v(c + -2) == Cubic(a, b, d, e, 2 * -2 - 1) && v(c + -1) == Cubic(a, b, d, e, 2 * -1 - 1);
      assert v(c + 0) == Cubic(a, b, d, e, 2 * 0 - 1) && v(c + 1) == Cubic(a, b, d, e, 2 * 1 - 1);
      assert v(c + 2) == Cubic(a, b, d, e, 2 * 2 - 1) && v(c + 3) == Cubic(a, b, d, e, 2 * 3 - 1);
    }
    if CubicAt(k => s.Sample(k, c), r, a, b, d, e) {
      var v := k => s.Sample(k, c);
      assert v(r + -2) == Cubic(a, b, d, e, 2 * -2 - 1) && v(r + -1) == Cubic(a, b, d, e, 2 * -1 - 1);
      assert v(r + 0) == Cubic(a, b, d, e, 2 * 0 - 1) && v(r + 1) == Cubic(a, b, d, e, 2 * 1 - 1);
      assert v(r + 2) == Cubic(a, b, d, e, 2 * 2 - 1) && v(r + 3) == Cubic(a, b, d, e, 2 * 3 - 1);
    }
  }

  // Where a row is a cubic polynomial the horizontal half sample is exact, where a
  // column is one the vertical half sample.
  lemma HalfOfCubic(s: Ref, r: int, c: int, a: int, b: int, d: int, e: int)
    requires 0 <= a < 256
    ensures CubicAt(k => s.Sample(r, k), c, a, b, d, e) ==> HalfHorz(s).Value(r, c) == a
    ensures CubicAt(k => s.Sample(k, c), r, a, b, d, e) ==> HalfVert(s).Value(r, c) == a
  {
    hide HorzSum, VertSum, CubicAt, Ref.Sample, Picture.Value, HalfHorz, HalfVert;
    SumOfCubic(s, r, c, a, b, d, e);
    HalfValues(s, r, c);
  }

  // Where six rows are cubic polynomials, and their middle values one as well, the
  // half-half sample is exact.
  lemma HalfBothOfCubic(s: Ref, r: int, c: int, a: int, b: int, d: int, e: int, b': int, d': int, e': int)
    requires 0 <= a < 256
    requires forall i :: -2 <= i <= 3 ==>
               CubicAt(k => s.Sample(r + i, k), c, Cubic(a, b, d, e, 2 * i - 1), b', d', e')
    ensures HalfBoth(s).Value(r, c) == a
  {
    hide Tap, Cubic, CubicAt, HorzSum, Ref.Sample, Picture.Value, HalfBoth;
    forall i | -2 <= i <= 3 ensures HorzSum(s, r + i, c) == 32 * Cubic(a, b, d, e, 2 * i - 1) {
      SumOfCubic(s, r + i, c, Cubic(a, b, d, e, 2 * i - 1), b', d', e');
    }
    assert HorzSum(s, r + -2, c) == 32 * Cubic(a, b, d, e, 2 * -2 - 1);
    assert HorzSum(s, r + -1, c) == 32 * Cubic(a, b, d, e, 2 * -1 - 1);
    assert HorzSum(s, r + 0, c) == 32 * Cubic(a, b, d, e, 2 * 0 - 1);
    assert HorzSum(s, r + 1, c) == 32 * Cubic(a, b, d, e, 2 * 1 - 1);
    assert HorzSum(s, r + 2, c) == 32 * Cubic(a, b, d, e, 2 * 2 - 1);
    assert HorzSum(s, r + 3, c) == 32 * Cubic(a, b, d, e, 2 * 3 - 1);
    TapScales(Cubic(a, b, d, e, -5), Cubic(a, b, d, e, -3), Cubic(a, b, d, e, -1),
        Cubic(a, b, d, e, 1), Cubic(a, b, d, e, 3), Cubic(a, b, d, e, 5));
    TapOfCubic(a, b, d, e);
    HalfValues(s, r, c);
  }

  lemma TapScales(a: int, b: int, c: int, d: int, e: int, f: int)
    ensures Tap(32 * a, 32 * b, 32 * c, 32 * d, 32 * e, 32 * f) == 32 * Tap(a, b, c, d, e, f)
  {
  }

  // How much the sample k columns to the right, or k rows below, weighs.
  function TapWeight(k: int): int {
    if k == 0 || k == 1 then 20 else if k == -1 || k == 2 then -5 else if k == -2 || k == 3 then 1 else 0
  }

  // Raising the sample in one column, or in one row, raises the sums by its weight.
  lemma HorzResponse(s: Ref, m: Ref, r: int, c: int, x: int, u: int)
    requires forall k :: c - 2 <= k <= c + 3 ==> m.Sample(r, k) == s.Sample(r, k) + if k == x then u else 0
    ensures HorzSum(m, r, c) == HorzSum(s, r, c) + TapWeight(x - c) * u
  {
    hide Ref.Sample;
  }

  lemma VertResponse(s: Ref, m: Ref, r: int, c: int, y: int, u: int)
    requires forall k :: r - 2 <= k <= r + 3 ==> m.Sample(k, c) == s.Sample(k, c) + if k == y then u else 0
    ensures VertSum(m, r, c) == VertSum(s, r, c) + TapWeight(y - r) * u
  {
    hide Ref.Sample;
  }

  // How far n times the sample w is from x.
  function Off(x: int, n: int, w: int): int {
    if n * w < x then x - n * w else n * w - x
  }

  // v is the sample nearest to x / n, the larger one on a tie.
  predicate NearestTo(x: int, n: int, v: int, w: U8) {
    Off(x, n, v) <= Off(x, n, w) && (w > v ==> Off(x, n, v) < Off(x, n, w))
  }

  // The half samples are the weighted sums rounded and clipped to the nearest sample.
  lemma HalfNearest(s: Ref, r: int, c: int, w: U8)
    ensures NearestTo(HorzSum(s, r, c), 32, HalfHorz(s).Value(r, c), w)
    ensures NearestTo(VertSum(s, r, c), 32, HalfVert(s).Value(r, c), w)
    ensures NearestTo(CrossSum(s, r, c), 1024, HalfBoth(s).Value(r, c), w)
  {
    hide HorzSum, VertSum, CrossSum, Picture.Value, HalfHorz, HalfVert, HalfBoth;
    HalfValues(s, r, c);
  }

  // ---- the quarter samples ----

  lemma NearestWhole(x: int, y: int)
    requires 0 <= x < 4 && 0 <= y < 4
    ensures NearCol(4 * y + x) == (if x <= 1 then 0 else 1) && NearRow(4 * y + x) == (if y <= 1 then 0 else 1)
  {
  }

  // ---- the quarter samples ----

  // x quarters to the right the whole sample on that side, or y down.
  lemma QuarterShifts(s: Ref, x: int, y: int, r: int, c: int)
    requires 0 <= x < 4 && 0 <= y < 4
    ensures var right, low := if x <= 1 then c else c + 1, if y <= 1 then r else r + 1;
            && Full(s.Shift(0, NearCol(4 * y + x))).Value(r, c) == s.Sample(r, right)
            && Full(s.Shift(NearRow(4 * y + x), 0)).Value(r, c) == s.Sample(low, c)
            && HalfVert(s.Shift(0, NearCol(4 * y + x))).Value(r, c) == HalfVert(s).Value(r, right)
            && HalfHorz(s.Shift(NearRow(4 * y + x), 0)).Value(r, c) == HalfHorz(s).Value(low, c)
  {
    hide NearCol, NearRow, HorzSum, VertSum, HalfVert, HalfHorz, Ref.Sample, Ref.Shift;
    NearestWhole(x, y);
    var dr, dc := NearRow(4 * y + x), NearCol(4 * y + x);
    ShiftMoves(s, 0, dc);
    ShiftMoves(s, dr, 0);
    ShiftMovesSums(s, 0, dc, r, c);
    ShiftMovesSums(s, dr, 0, r, c);
    HalfValues(s.Shift(0, dc), r, c);
    HalfValues(s.Shift(dr, 0), r, c);
    HalfValues(s, r, c + dc);
    HalfValues(s, r + dr, c);
  }

  lemma QuarterMean(after: seq<U8>, before: seq<U8>, p: int, strd: int, ht: int, wd: int, a: Picture, b: Picture,
      r: int, c: int)
    requires Painted(after, before, p, strd, ht, wd, Mean(a, b)) && 0 <= r < ht && 0 <= c < wd
    ensures Ref(after, p, strd).Sample(r, c) == (a.Value(r, c) + b.Value(r, c) + 1) / 2
  {
    hide Painted, Ref.Sample;
    ReadBack(after, before, p, strd, ht, wd, Mean(a, b), r, c);
    MeanValue(a, b, r, c);
  }

  // One or three quarters to the right: between the horizontal half sample and the
  // whole sample on its left or on its right.
  method HorzQuarter(src: array<U8>, sp: int, dst: array<U8>, dp: int, srcStrd: int, dstStrd: int, ht: nat, wd: nat,
      x: int, y: int)
    requires (x == 1 || x == 3) && 0 <= y < 4
    requires src != dst && dstStrd >= wd && Covers(dst.Length, dp, dstStrd, 0, ht, 0, wd)
    requires wd > 0 ==> Covers(src.Length, sp, srcStrd, 0, ht, -2, wd + 3)
    modifies dst
    ensures var s := Ref(src[..], sp, srcStrd);
            forall r, c :: 0 <= r < ht && 0 <= c < wd ==>
              Ref(dst[..], dp, dstStrd).Sample(r, c)
              == (HalfHorz(s).Value(r, c) + s.Sample(r, if x == 1 then c else c + 1) + 1) / 2
  {
    hide NearCol, NearRow, Painted, Covers, HalfHorz, Ref.Sample, Ref.Shift, Picture.Value;
    ghost var s, before := Ref(src[..], sp, srcStrd), dst[..];
    HorzQpel(src, sp, dst, dp, srcStrd, dstStrd, ht, wd, 4 * y + x);
    forall r, c | 0 <= r < ht && 0 <= c < wd
      ensures Ref(dst[..], dp, dstStrd).Sample(r, c)
              == (HalfHorz(s).Value(r, c) + s.Sample(r, if x == 1 then c else c + 1) + 1) / 2
    {
      QuarterMean(dst[..], before, dp, dstStrd, ht, wd, HalfHorz(s), Full(s.Shift(0, NearCol(4 * y + x))), r, c);
      QuarterShifts(s, x, y, r, c);
    }
  }

  // One or three quarters down: between the vertical half sample and the whole sample
  // above or below it.
  method VertQuarter(src: array<U8>, sp: int, dst: array<U8>, dp: int, srcStrd: int, dstStrd: int, ht: nat, wd: nat,
      x: int, y: int)
    requires 0 <= x < 4 && (y == 1 || y == 3)
    requires src != dst && dstStrd >= wd && Covers(dst.Length, dp, dstStrd, 0, ht, 0, wd)
    requires ht > 0 ==> Covers(src.Length, sp, srcStrd, -2, ht + 3, 0, wd)
    modifies dst
    ensures var s := Ref(src[..], sp, srcStrd);
            forall r, c :: 0 <= r < ht && 0 <= c < wd ==>
              Ref(dst[..], dp, dstStrd).Sample(r, c)
              == (HalfVert(s).Value(r, c) + s.Sample(if y == 1 then r else r + 1, c) + 1) / 2
  {
    hide NearCol, NearRow, Painted, Covers, HalfVert, Ref.Sample, Ref.Shift, Picture.Value;
    ghost var s, before := Ref(src[..], sp, srcStrd), dst[..];
    VertQpel(src, sp, dst, dp, srcStrd, dstStrd, ht, wd, 4 * y + x);
    forall r, c | 0 <= r < ht && 0 <= c < wd
      ensures Ref(dst[..], dp, dstStrd).Sample(r, c)
              == (HalfVert(s).Value(r, c) + s.Sample(if y == 1 then r else r + 1, c) + 1) / 2
    {
      QuarterMean(dst[..], before, dp, dstStrd, ht, wd, HalfVert(s), Full(s.Shift(NearRow(4 * y + x), 0)), r, c);
      QuarterShifts(s, x, y, r, c);
    }
  }

  // Diagonally between: the vertical half sample of the nearer column and the
  // horizontal half sample of the nearer row.
  method DiagonalQuarter(src: array<U8>, sp: int, dst: array<U8>, dp: int, srcStrd: int, dstStrd: int, ht: nat,
      wd: nat, x: int, y: int)
    requires (x == 1 || x == 3) && (y == 1 || y == 3)
    requires src != dst && dstStrd >= wd && Covers(dst.Length, dp, dstStrd, 0, ht, 0, wd)
    requires var dc := if x == 1 then 0 else 1;
             ht > 0 ==> Covers(src.Length, At(sp, srcStrd, 0, dc), srcStrd, -2, ht + 3, 0, wd)
    requires var dr := if y == 1 then 0 else 1;
             wd > 0 ==> Covers(src.Length, At(sp, srcStrd, dr, 0), srcStrd, 0, ht, -2, wd + 3)
    modifies dst
    ensures var s := Ref(src[..], sp, srcStrd);
            forall r, c :: 0 <= r < ht && 0 <= c < wd ==>
              Ref(dst[..], dp, dstStrd).Sample(r, c)
              == (HalfVert(s).Value(r, if x == 1 then c else c + 1)
                  + HalfHorz(s).Value(if y == 1 then r else r + 1, c) + 1) / 2
  {
    hide NearCol, NearRow, Painted, Covers, HalfVert, HalfHorz, Ref.Sample, Ref.Shift, Picture.Value;
    ghost var s, before := Ref(src[..], sp, srcStrd), dst[..];
    NearestWhole(x, y);
    HorzQpelVertQpel(src, sp, dst, dp, srcStrd, dstStrd, ht, wd, 4 * y + x);
    forall r, c | 0 <= r < ht && 0 <= c < wd
      ensures Ref(dst[..], dp, dstStrd).Sample(r, c)
              == (HalfVert(s).Value(r, if x == 1 then c else c + 1)
                  + HalfHorz(s).Value(if y == 1 then r else r + 1, c) + 1) / 2
    {
      QuarterMean(dst[..], before, dp, dstStrd, ht, wd, HalfVert(s.Shift(0, NearCol(4 * y + x))),
          HalfHorz(s.Shift(NearRow(4 * y + x), 0)), r, c);
      QuarterShifts(s, x, y, r, c);
    }
  }

  // Beside the half-half sample: with the vertical half sample of the nearer column.
  method CentreRowQuarter(src: array<U8>, sp: int, dst: array<U8>, dp: int, srcStrd: int, dstStrd: int, ht: nat,
      wd: nat, tmp: array<I16>, x: int, y: int)
    requires (x == 1 || x == 3) && 0 <= y < 4
    requires src != dst && dstStrd >= wd && Covers(dst.Length, dp, dstStrd, 0, ht, 0, wd)
    requires ht > 0 ==> Covers(src.Length, sp, srcStrd, -2, ht + 3, -2, wd + 3)
    requires Covers(tmp.Length, 0, wd + 5, 0, ht, 0, wd + 5)
    modifies dst, tmp
    ensures var s := Ref(src[..], sp, srcStrd);
            forall r, c :: 0 <= r < ht && 0 <= c < wd ==>
              Ref(dst[..], dp, dstStrd).Sample(r, c)
              == (HalfBoth(s).Value(r, c) + HalfVert(s).Value(r, if x == 1 then c else c + 1) + 1) / 2
  {
    hide NearCol, NearRow, Painted, Covers, HalfVert, HalfBoth, Ref.Sample, Ref.Shift, Picture.Value;
    ghost var s, before := Ref(src[..], sp, srcStrd), dst[..];
    HorzQpelVertHpel(src, sp, dst, dp, srcStrd, dstStrd, ht, wd, tmp, 4 * y + x);
    forall r, c | 0 <= r < ht && 0 <= c < wd
      ensures Ref(dst[..], dp, dstStrd).Sample(r, c)
              == (HalfBoth(s).Value(r, c) + HalfVert(s).Value(r, if x == 1 then c else c + 1) + 1) / 2
    {
      QuarterMean(dst[..], before, dp, dstStrd, ht, wd, HalfBoth(s), HalfVert(s.Shift(0, NearCol(4 * y + x))), r, c);
      QuarterShifts(s, x, y, r, c);
    }
  }

  // Above or below it: with the horizontal half sample of the nearer row.
  method CentreColQuarter(src: array<U8>, sp: int, dst: array<U8>, dp: int, srcStrd: int, dstStrd: int, ht: nat,
      wd: nat, tmp: array<I16>, x: int, y: int)
    requires 0 <= x < 4 && (y == 1 || y == 3)
    requires src != dst && dstStrd >= wd && Covers(dst.Length, dp, dstStrd, 0, ht, 0, wd)
    requires wd > 0 ==> Covers(src.Length, sp, srcStrd, -2, ht + 3, -2, wd + 3)
    requires Covers(tmp.Length, 0, wd, 0, ht + 5, 0, wd)
    modifies dst, tmp
    ensures var s := Ref(src[..], sp, srcStrd);
            forall r, c :: 0 <= r < ht && 0 <= c < wd ==>
              Ref(dst[..], dp, dstStrd).Sample(r, c)
              == (HalfBoth(s).Value(r, c) + HalfHorz(s).Value(if y == 1 then r else r + 1, c) + 1) / 2
  {
    hide NearCol, NearRow, Painted, Covers, HalfHorz, HalfBoth, Ref.Sample, Ref.Shift, Picture.Value;
    ghost var s, before := Ref(src[..], sp, srcStrd), dst[..];
    HorzHpelVertQpel(src, sp, dst, dp, srcStrd, dstStrd, ht, wd, tmp, 4 * y + x);
    forall r, c | 0 <= r < ht && 0 <= c < wd
      ensures Ref(dst[..], dp, dstStrd).Sample(r, c)
              == (HalfBoth(s).Value(r, c) + HalfHorz(s).Value(if y == 1 then r else r + 1, c) + 1) / 2
    {
      QuarterMean(dst[..], before, dp, dstStrd, ht, wd, HalfBoth(s), HalfHorz(s.Shift(NearRow(4 * y + x), 0)), r, c);
      QuarterShifts(s, x, y, r, c);
    }
  }

  // ---- mirrored pictures ----

  // Columns -2 .. wd + 2 of rows r0 .. r1 of m are those of s from right to left.
  ghost predicate MirrorOf(s: Ref, m: Ref, r0: int, r1: int, wd: int) {
    forall r, c :: r0 <= r < r1 && -2 <= c <= wd + 2 ==> m.Sample(r, wd - c) == s.Sample(r, c)
  }

  lemma TapTurned(a: int, b: int, c: int, d: int, e: int, f: int)
    ensures Tap(a, b, c, d, e, f) == Tap(f, e, d, c, b, a)
  {
  }

  lemma MirrorHalf(s: Ref, m: Ref, r0: int, r1: int, wd: int, r: int, c: int)
    requires MirrorOf(s, m, r0, r1, wd) && r0 <= r < r1 && 0 <= c < wd
    ensures HalfHorz(m).Value(r, wd - 1 - c) == HalfHorz(s).Value(r, c)
    ensures m.Sample(r, wd - 1 - c) == s.Sample(r, c + 1) && m.Sample(r, wd - c) == s.Sample(r, c)
  {
    hide Tap, Ref.Sample, HalfHorz, Picture.Value;
    var d := wd - 1 - c;
    TapTurned(s.Sample(r, c - 2), s.Sample(r, c - 1), s.Sample(r, c),
        s.Sample(r, c + 1), s.Sample(r, c + 2), s.Sample(r, c + 3));
    assert m.Sample(r, wd - (c - 2)) == s.Sample(r, c - 2) && m.Sample(r, wd - (c - 1)) == s.Sample(r, c - 1);
    assert m.Sample(r, wd - c) == s.Sample(r, c) && m.Sample(r, wd - (c + 1)) == s.Sample(r, c + 1);
    assert m.Sample(r, wd - (c + 2)) == s.Sample(r, c + 2) && m.Sample(r, wd - (c + 3)) == s.Sample(r, c + 3);
    HalfValues(s, r, c);
    HalfValues(m, r, d);
  }

  // Three quarters to the right on the mirrored picture are one quarter on the picture.
  method HorzMirrored(src: array<U8>, mir: array<U8>, p: int, strd: int, one: array<U8>, two: array<U8>, dp: int,
      dstStrd: int, ht: nat, wd: nat, y: int)
    requires src != one && src != two && mir != one && mir != two && one != two && 0 <= y < 4
    requires dstStrd >= wd && Covers(one.Length, dp, dstStrd, 0, ht, 0, wd)
    requires Covers(two.Length, dp, dstStrd, 0, ht, 0, wd)
    requires wd > 0 ==> Covers(src.Length, p, strd, 0, ht, -2, wd + 3) && Covers(mir.Length, p, strd, 0, ht, -2, wd + 3)
    requires MirrorOf(Ref(src[..], p, strd), Ref(mir[..], p, strd), 0, ht, wd)
    modifies one, two
    ensures forall r, c :: 0 <= r < ht && 0 <= c < wd ==>
              Ref(two[..], dp, dstStrd).Sample(r, wd - 1 - c) == Ref(one[..], dp, dstStrd).Sample(r, c)
  {
    hide Covers, MirrorOf, HalfHorz, Ref.Sample, Picture.Value;
    HorzQuarter(src, p, one, dp, strd, dstStrd, ht, wd, 1, y);
    HorzQuarter(mir, p, two, dp, strd, dstStrd, ht, wd, 3, y);
    forall r, c | 0 <= r < ht && 0 <= c < wd
      ensures Ref(two[..], dp, dstStrd).Sample(r, wd - 1 - c) == Ref(one[..], dp, dstStrd).Sample(r, c)
    {
      MirrorHalf(Ref(src[..], p, strd), Ref(mir[..], p, strd), 0, ht, wd, r, c);
    }
  }

  // The same from bottom to top.
  ghost predicate UpsideDown(s: Ref, m: Ref, ht: int, c0: int, c1: int) {
    forall r, c :: -2 <= r <= ht + 2 && c0 <= c < c1 ==> m.Sample(ht - r, c) == s.Sample(r, c)
  }

  lemma UpsideDownHalf(s: Ref, m: Ref, ht: int, c0: int, c1: int, r: int, c: int)
    requires UpsideDown(s, m, ht, c0, c1) && 0 <= r < ht && c0 <= c < c1
    ensures HalfVert(m).Value(ht - 1 - r, c) == HalfVert(s).Value(r, c)
    ensures m.Sample(ht - 1 - r, c) == s.Sample(r + 1, c) && m.Sample(ht - r, c) == s.Sample(r, c)
  {
    hide Tap, Ref.Sample, HalfVert, Picture.Value;
    var d := ht - 1 - r;
    TapTurned(s.Sample(r - 2, c), s.Sample(r - 1, c), s.Sample(r, c),
        s.Sample(r + 1, c), s.Sample(r + 2, c), s.Sample(r + 3, c));
    assert m.Sample(ht - (r - 2), c) == s.Sample(r - 2, c) && m.Sample(ht - (r - 1), c) == s.Sample(r - 1, c);
    assert m.Sample(ht - r, c) == s.Sample(r, c) && m.Sample(ht - (r + 1), c) == s.Sample(r + 1, c);
    assert m.Sample(ht - (r + 2), c) == s.Sample(r + 2, c) && m.Sample(ht - (r + 3), c) == s.Sample(r + 3, c);
    HalfValues(s, r, c);
    HalfValues(m, d, c);
  }

  method VertMirrored(src: array<U8>, mir: array<U8>, p: int, strd: int, one: array<U8>, two: array<U8>, dp: int,
      dstStrd: int, ht: nat, wd: nat, x: int)
    requires src != one && src != two && mir != one && mir != two && one != two && 0 <= x < 4
    requires dstStrd >= wd && Covers(one.Length, dp, dstStrd, 0, ht, 0, wd)
    requires Covers(two.Length, dp, dstStrd, 0, ht, 0, wd)
    requires ht > 0 ==> Covers(src.Length, p, strd, -2, ht + 3, 0, wd) && Covers(mir.Length, p, strd, -2, ht + 3, 0, wd)
    requires UpsideDown(Ref(src[..], p, strd), Ref(mir[..], p, strd), ht, 0, wd)
    modifies one, two
    ensures forall r, c :: 0 <= r < ht && 0 <= c < wd ==>
              Ref(two[..], dp, dstStrd).Sample(ht - 1 - r, c) == Ref(one[..], dp, dstStrd).Sample(r, c)
  {
    hide Covers, UpsideDown, HalfVert, Ref.Sample, Picture.Value;
    VertQuarter(src, p, one, dp, strd, dstStrd, ht, wd, x, 1);
    VertQuarter(mir, p, two, dp, strd, dstStrd, ht, wd, x, 3);
    forall r, c | 0 <= r < ht && 0 <= c < wd
      ensures Ref(two[..], dp, dstStrd).Sample(ht - 1 - r, c) == Ref(one[..], dp, dstStrd).Sample(r, c)
    {
      UpsideDownHalf(Ref(src[..], p, strd), Ref(mir[..], p, strd), ht, 0, wd, r, c);
    }
  }
}
