// The interpolation filters, writing into a destination buffer and through a
// scratch buffer of 16-bit sums. A pointer is an array and an index.
module InterpKernels {
  import opened Pixels
  import opened Interpolation

  const SIX_TAP: seq<int> := [1, -5, 20]

  function Weighted(a: int, b: int, c: int, d: int, e: int, f: int): int {
    SIX_TAP[0] * (a + f) + SIX_TAP[1] * (b + e) + SIX_TAP[2] * (c + d)
  }

  function ShiftAndAdd(a: int, b: int, c: int, d: int, e: int, f: int): int {
    a + f - (b + e) + (c + d - b - e) * 4 + (c + d) * 16
  }

  // Both forms in the source are the six-tap filter.
  lemma SameFilter(a: int, b: int, c: int, d: int, e: int, f: int)
    ensures Weighted(a, b, c, d, e, f) == ShiftAndAdd(a, b, c, d, e, f) == Tap(a, b, c, d, e, f)
  {
  }

  // The six samples at a fixed step around index i lie in the buffer.
  predicate Fits(length: nat, i: int, step: int) {
    && 0 <= i - 2 * step < length && 0 <= i - step < length && 0 <= i < length
    && 0 <= i + step < length && 0 <= i + 2 * step < length && 0 <= i + 3 * step < length
  }

  function WeightedAt(a: array<U8>, i: int, step: int): int
    requires Fits(a.Length, i, step)
    reads a
  {
    Weighted(a[i - 2 * step], a[i - step], a[i], a[i + step], a[i + 2 * step], a[i + 3 * step])
  }

  function ShiftAndAddAt(a: array<U8>, i: int, step: int): int
    requires Fits(a.Length, i, step)
    reads a
  {
    ShiftAndAdd(a[i - 2 * step], a[i - step], a[i], a[i + step], a[i + 2 * step], a[i + 3 * step])
  }

  // The same on the scratch buffer.
  function WeightedSums(a: array<I16>, i: int, step: int): int
    requires Fits(a.Length, i, step)
    reads a
  {
    Weighted(a[i - 2 * step], a[i - step], a[i], a[i + step], a[i + 2 * step], a[i + 3 * step])
  }

  // ---- from indices to rows and columns ----

  lemma Reach(length: nat, p: int, strd: int, r0: int, r1: int, c0: int, c1: int, row: int, col: int)
    requires Covers(length, p, strd, r0, r1, c0, c1) && r0 <= row < r1 && c0 <= col < c1
    ensures 0 <= At(p, strd, row, col) < length
  {
  }

  lemma ReachAcross(length: nat, p: int, strd: int, r0: int, r1: int, c0: int, c1: int, row: int, col: int)
    requires Covers(length, p, strd, r0, r1, c0, c1) && r0 <= row < r1 && c0 + 2 <= col < c1 - 3
    ensures Fits(length, At(p, strd, row, col), 1)
  {
    assert 0 <= At(p, strd, row, col - 2) && At(p, strd, row, col + 3) < length;
  }

  lemma ReachDown(length: nat, p: int, strd: int, r0: int, r1: int, c0: int, c1: int, row: int, col: int)
    requires Covers(length, p, strd, r0, r1, c0, c1) && r0 + 2 <= row < r1 - 3 && c0 <= col < c1
    ensures Fits(length, At(p, strd, row, col), strd)
    ensures var i := At(p, strd, row, col);
            && At(p, strd, row - 2, col) == i - 2 * strd && At(p, strd, row - 1, col) == i - strd
            && At(p, strd, row + 1, col) == i + strd && At(p, strd, row + 2, col) == i + 2 * strd
            && At(p, strd, row + 3, col) == i + 3 * strd
  {
    assert 0 <= At(p, strd, row - 2, col) < length && 0 <= At(p, strd, row - 1, col) < length;
    assert 0 <= At(p, strd, row, col) < length;
    assert 0 <= At(p, strd, row + 1, col) < length && 0 <= At(p, strd, row + 2, col) < length;
    assert 0 <= At(p, strd, row + 3, col) < length;
    assert (row - 2) * strd == row * strd - 2 * strd && (row + 2) * strd == row * strd + 2 * strd;
    assert (row + 3) * strd == row * strd + 3 * strd;
  }

  lemma Across(a: array<U8>, p: int, strd: int, r0: int, r1: int, c0: int, c1: int, row: int, col: int)
    requires Covers(a.Length, p, strd, r0, r1, c0, c1) && r0 <= row < r1 && c0 + 2 <= col < c1 - 3
    ensures Fits(a.Length, At(p, strd, row, col), 1)
    ensures WeightedAt(a, At(p, strd, row, col), 1) == ShiftAndAddAt(a, At(p, strd, row, col), 1)
            == HorzSum(Ref(a[..], p, strd), row, col)
    ensures -2550 <= HorzSum(Ref(a[..], p, strd), row, col) <= 10710
  {
    hide Tap, Weighted, ShiftAndAdd;
    ReachAcross(a.Length, p, strd, r0, r1, c0, c1, row, col);
    var i := At(p, strd, row, col);
    SameFilter(a[i - 2], a[i - 1], a[i], a[i + 1], a[i + 2], a[i + 3]);
    SumRange(Ref(a[..], p, strd), row, col);
  }

  lemma Down(a: array<U8>, p: int, strd: int, r0: int, r1: int, c0: int, c1: int, row: int, col: int)
    requires Covers(a.Length, p, strd, r0, r1, c0, c1) && r0 + 2 <= row < r1 - 3 && c0 <= col < c1
    ensures Fits(a.Length, At(p, strd, row, col), strd)
    ensures WeightedAt(a, At(p, strd, row, col), strd) == ShiftAndAddAt(a, At(p, strd, row, col), strd)
            == VertSum(Ref(a[..], p, strd), row, col)
    ensures -2550 <= VertSum(Ref(a[..], p, strd), row, col) <= 10710
  {
    hide Tap, Weighted, ShiftAndAdd, At, Covers;
    ReachDown(a.Length, p, strd, r0, r1, c0, c1, row, col);
    var i := At(p, strd, row, col);
    SameFilter(a[i - 2 * strd], a[i - strd], a[i], a[i + strd], a[i + 2 * strd], a[i + 3 * strd]);
    SumRange(Ref(a[..], p, strd), row, col);
  }

  // A whole sample of the moved picture.
  lemma Nearer(a: array<U8>, p: int, strd: int, r0: int, r1: int, c0: int, c1: int, row: int, col: int, dr: int,
      dc: int)
    requires Covers(a.Length, p, strd, r0, r1, c0, c1) && r0 <= row + dr < r1 && c0 <= col + dc < c1
    ensures var i := At(At(p, strd, dr, dc), strd, row, col);
            0 <= i < a.Length && a[i] == Full(Ref(a[..], p, strd).Shift(dr, dc)).Value(row, col)
  {
    assert (row + dr) * strd == row * strd + dr * strd;
    assert 0 <= At(p, strd, row + dr, col + dc) < a.Length;
  }

  // Stepping along a row and down a column.
  lemma Walk(p: int, strd: int, row: int, col: int)
    ensures At(p, strd, 0, 0) == p && At(p, strd, row, 0) == p + row * strd
    ensures At(p, strd, row, col) == At(p, strd, row, 0) + col
    ensures At(p, strd, row + 1, 0) == At(p, strd, row, 0) + strd
  {
  }

  lemma FullValue(s: Ref, r: int, c: int)
    requires 0 <= At(s.p, s.strd, r, c) < |s.buf|
    ensures Full(s).Value(r, c) == s.buf[At(s.p, s.strd, r, c)]
  {
  }

  lemma AlreadyClipped(x: int)
    requires 0 <= x < 256
    ensures Clip(x) == x
  {
  }

  lemma MeanValue(a: Picture, b: Picture, r: int, c: int)
    ensures Mean(a, b).Value(r, c) == (a.Value(r, c) + b.Value(r, c) + 1) / 2
  {
  }

  // The quarters of a sample by which a block is displaced: the horizontal one in the
  // low two bits, the vertical one above them.
  type Fractions = d: int | 0 <= d < 16

  // The whole sample nearer to a quarter position.
  function NearCol(dydx: Fractions): (x: int)
    ensures 0 <= x <= 1
  {
    dydx % 4 / 2
  }

  function NearRow(dydx: Fractions): (y: int)
    ensures 0 <= y <= 1
  {
    dydx / 4 / 2
  }

  // ---- half-sample kernels ----

  method Horz(src: array<U8>, sp: int, dst: array<U8>, dp: int, srcStrd: int, dstStrd: int, ht: nat, wd: nat)
    requires src != dst && dstStrd >= wd && Covers(dst.Length, dp, dstStrd, 0, ht, 0, wd)
    requires wd > 0 ==> Covers(src.Length, sp, srcStrd, 0, ht, -2, wd + 3)
    modifies dst
    ensures Painted(dst[..], old(dst[..]), dp, dstStrd, ht, wd, HalfHorz(Ref(src[..], sp, srcStrd)))
  {
    hide PaintedTo, Picture.Value, HalfHorz, HalfVert, HalfBoth, HorzSum, VertSum, CrossSum, WeightedAt,
        ShiftAndAddAt, WeightedSums, Clip, Covers, Fits, Holds, At, Ref.Sample;
    ghost var from := Ref(src[..], sp, srcStrd);
    ghost var pic := HalfHorz(from);
    PaintStart(dst[..], dp, dstStrd, ht, wd, pic);
    var s, d := sp, dp;
    Walk(dp, dstStrd, 0, 0);
    Walk(sp, srcStrd, 0, 0);
    for row := 0 to ht
      invariant s == At(sp, srcStrd, row, 0) && d == At(dp, dstStrd, row, 0)
      invariant PaintedTo(dst[..], old(dst[..]), dp, dstStrd, ht, wd, pic, row, 0)
    {
      for col := 0 to wd
        invariant PaintedTo(dst[..], old(dst[..]), dp, dstStrd, ht, wd, pic, row, col)
      {
        Reach(dst.Length, dp, dstStrd, 0, ht, 0, wd, row, col);
        Walk(dp, dstStrd, row, col);
        Walk(sp, srcStrd, row, col);
        Across(src, sp, srcStrd, 0, ht, -2, wd + 3, row, col);
        HalfValues(from, row, col);
        var tmp: I16 := WeightedAt(src, s + col, 1);
        tmp := (tmp + 16) / 32;
        PaintNext(dst[..], old(dst[..]), dp, dstStrd, ht, wd, pic, row, col);
        ghost var cur := dst[..];
        dst[d + col] := Clip(tmp);
        assert dst[..] == cur[d + col := dst[d + col]];
      }
      PaintRow(dst[..], old(dst[..]), dp, dstStrd, ht, wd, pic, row);
      Walk(dp, dstStrd, row, 0);
      Walk(sp, srcStrd, row, 0);
      s, d := s + srcStrd, d + dstStrd;
    }
  }

  method Vert(src: array<U8>, sp: int, dst: array<U8>, dp: int, srcStrd: int, dstStrd: int, ht: nat, wd: nat)
    requires src != dst && dstStrd >= wd && Covers(dst.Length, dp, dstStrd, 0, ht, 0, wd)
    requires ht > 0 ==> Covers(src.Length, sp, srcStrd, -2, ht + 3, 0, wd)
    modifies dst
    ensures Painted(dst[..], old(dst[..]), dp, dstStrd, ht, wd, HalfVert(Ref(src[..], sp, srcStrd)))
  {
    hide PaintedTo, Picture.Value, HalfHorz, HalfVert, HalfBoth, HorzSum, VertSum, CrossSum, WeightedAt,
        ShiftAndAddAt, WeightedSums, Clip, Covers, Fits, Holds, At, Ref.Sample;
    ghost var from := Ref(src[..], sp, srcStrd);
    ghost var pic := HalfVert(from);
    PaintStart(dst[..], dp, dstStrd, ht, wd, pic);
    var s, d := sp, dp;
    Walk(dp, dstStrd, 0, 0);
    Walk(sp, srcStrd, 0, 0);
    for row := 0 to ht
      invariant s == At(sp, srcStrd, row, 0) && d == At(dp, dstStrd, row, 0)
      invariant PaintedTo(dst[..], old(dst[..]), dp, dstStrd, ht, wd, pic, row, 0)
    {
      for col := 0 to wd
        invariant PaintedTo(dst[..], old(dst[..]), dp, dstStrd, ht, wd, pic, row, col)
      {
        Reach(dst.Length, dp, dstStrd, 0, ht, 0, wd, row, col);
        Walk(dp, dstStrd, row, col);
        Walk(sp, srcStrd, row, col);
        Down(src, sp, srcStrd, -2, ht + 3, 0, wd, row, col);
        HalfValues(from, row, col);
        var tmp: I16 := WeightedAt(src, s + col, srcStrd);
        tmp := (tmp + 16) / 32;
        PaintNext(dst[..], old(dst[..]), dp, dstStrd, ht, wd, pic, row, col);
        ghost var cur := dst[..];
        dst[d + col] := Clip(tmp);
        assert dst[..] == cur[d + col := dst[d + col]];
      }
      PaintRow(dst[..], old(dst[..]), dp, dstStrd, ht, wd, pic, row);
      Walk(dp, dstStrd, row, 0);
      Walk(sp, srcStrd, row, 0);
      s, d := s + srcStrd, d + dstStrd;
    }
  }

  // The average of two blocks.
  method Bilinear(a: array<U8>, ap: int, b: array<U8>, bp: int, dst: array<U8>, dp: int, aStrd: int, bStrd: int,
      dstStrd: int, ht: nat, wd: nat)
    requires a != dst && b != dst && dstStrd >= wd && Covers(dst.Length, dp, dstStrd, 0, ht, 0, wd)
    requires Covers(a.Length, ap, aStrd, 0, ht, 0, wd) && Covers(b.Length, bp, bStrd, 0, ht, 0, wd)
    modifies dst
    ensures Painted(dst[..], old(dst[..]), dp, dstStrd, ht, wd,
                    Mean(Full(Ref(a[..], ap, aStrd)), Full(Ref(b[..], bp, bStrd))))
  {
    hide PaintedTo, Picture.Value, HalfHorz, HalfVert, HalfBoth, HorzSum, VertSum, CrossSum, WeightedAt,
        ShiftAndAddAt, WeightedSums, Clip, Covers, Fits, Holds, At, Ref.Sample;
    ghost var pic := Mean(Full(Ref(a[..], ap, aStrd)), Full(Ref(b[..], bp, bStrd)));
    PaintStart(dst[..], dp, dstStrd, ht, wd, pic);
    var p, q, d := ap, bp, dp;
    Walk(dp, dstStrd, 0, 0);
    Walk(ap, aStrd, 0, 0);
    Walk(bp, bStrd, 0, 0);
    for row := 0 to ht
      invariant p == At(ap, aStrd, row, 0) && q == At(bp, bStrd, row, 0) && d == At(dp, dstStrd, row, 0)
      invariant PaintedTo(dst[..], old(dst[..]), dp, dstStrd, ht, wd, pic, row, 0)
    {
      for col := 0 to wd
        invariant PaintedTo(dst[..], old(dst[..]), dp, dstStrd, ht, wd, pic, row, col)
      {
        Reach(dst.Length, dp, dstStrd, 0, ht, 0, wd, row, col);
        Walk(dp, dstStrd, row, col);
        Walk(ap, aStrd, row, col);
        Walk(bp, bStrd, row, col);
        Reach(a.Length, ap, aStrd, 0, ht, 0, wd, row, col);
        Reach(b.Length, bp, bStrd, 0, ht, 0, wd, row, col);
        FullValue(Ref(a[..], ap, aStrd), row, col);
        FullValue(Ref(b[..], bp, bStrd), row, col);
        MeanValue(Full(Ref(a[..], ap, aStrd)), Full(Ref(b[..], bp, bStrd)), row, col);
        var tmp: I16 := (a[p + col] as int) + b[q + col];
        tmp := (tmp + 1) / 2;
        AlreadyClipped(tmp);
        PaintNext(dst[..], old(dst[..]), dp, dstStrd, ht, wd, pic, row, col);
        ghost var cur := dst[..];
        dst[d + col] := Clip(tmp);
        assert dst[..] == cur[d + col := dst[d + col]];
      }
      PaintRow(dst[..], old(dst[..]), dp, dstStrd, ht, wd, pic, row);
      Walk(dp, dstStrd, row, 0);
      Walk(ap, aStrd, row, 0);
      Walk(bp, bStrd, row, 0);
      p, q, d := p + aStrd, q + bStrd, d + dstStrd;
    }
  }

  // ---- quarter-sample kernels beside or below a whole sample ----

  method HorzQpel(src: array<U8>, sp: int, dst: array<U8>, dp: int, srcStrd: int, dstStrd: int, ht: nat, wd: nat,
      dydx: Fractions)
    requires src != dst && dstStrd >= wd && Covers(dst.Length, dp, dstStrd, 0, ht, 0, wd)
    requires wd > 0 ==> Covers(src.Length, sp, srcStrd, 0, ht, -2, wd + 3)
    modifies dst
    ensures Painted(dst[..], old(dst[..]), dp, dstStrd, ht, wd,
                    Mean(HalfHorz(Ref(src[..], sp, srcStrd)), Full(Ref(src[..], sp, srcStrd).Shift(0, NearCol(dydx)))))
  {
    hide NearCol, NearRow, PaintedTo, Picture.Value, HalfHorz, HalfVert, HalfBoth, HorzSum, VertSum, CrossSum,
        WeightedAt, ShiftAndAddAt, WeightedSums, Clip, Covers, Fits, Holds, At, Ref.Sample;
    ghost var from := Ref(src[..], sp, srcStrd);
    ghost var pic := Mean(HalfHorz(from), Full(from.Shift(0, NearCol(dydx))));
    PaintStart(dst[..], dp, dstStrd, ht, wd, pic);
    var xOffset := NearCol(dydx);
    Walk(sp, srcStrd, 0, xOffset);
    var s, q, d := sp, sp + xOffset, dp;
    Walk(dp, dstStrd, 0, 0);
    Walk(sp, srcStrd, 0, 0);
    Walk(At(sp, srcStrd, 0, NearCol(dydx)), srcStrd, 0, 0);
    for row := 0 to ht
      invariant s == At(sp, srcStrd, row, 0)
      invariant q == At(At(sp, srcStrd, 0, NearCol(dydx)), srcStrd, row, 0)
      invariant d == At(dp, dstStrd, row, 0)
      invariant PaintedTo(dst[..], old(dst[..]), dp, dstStrd, ht, wd, pic, row, 0)
    {
      for col := 0 to wd
        invariant PaintedTo(dst[..], old(dst[..]), dp, dstStrd, ht, wd, pic, row, col)
      {
        Reach(dst.Length, dp, dstStrd, 0, ht, 0, wd, row, col);
        Walk(dp, dstStrd, row, col);
        Walk(sp, srcStrd, row, col);
        Walk(At(sp, srcStrd, 0, NearCol(dydx)), srcStrd, row, col);
        Across(src, sp, srcStrd, 0, ht, -2, wd + 3, row, col);
        Nearer(src, sp, srcStrd, 0, ht, -2, wd + 3, row, col, 0, xOffset);
        HalfValues(from, row, col);
        MeanValue(HalfHorz(from), Full(from.Shift(0, xOffset)), row, col);
        var temp: I16 := ShiftAndAddAt(src, s + col, 1);
        temp := (temp + 16) / 32;
        temp := Clip(temp);
        PaintNext(dst[..], old(dst[..]), dp, dstStrd, ht, wd, pic, row, col);
        ghost var cur := dst[..];
        dst[d + col] := (temp + src[q + col] + 1) / 2;
        assert dst[..] == cur[d + col := dst[d + col]];
      }
      PaintRow(dst[..], old(dst[..]), dp, dstStrd, ht, wd, pic, row);
      Walk(dp, dstStrd, row, 0);
      Walk(sp, srcStrd, row, 0);
      Walk(At(sp, srcStrd, 0, NearCol(dydx)), srcStrd, row, 0);
      s, q, d := s + srcStrd, q + srcStrd, d + dstStrd;
    }
  }

  method VertQpel(src: array<U8>, sp: int, dst: array<U8>, dp: int, srcStrd: int, dstStrd: int, ht: nat, wd: nat,
      dydx: Fractions)
    requires src != dst && dstStrd >= wd && Covers(dst.Length, dp, dstStrd, 0, ht, 0, wd)
    requires ht > 0 ==> Covers(src.Length, sp, srcStrd, -2, ht + 3, 0, wd)
    modifies dst
    ensures Painted(dst[..], old(dst[..]), dp, dstStrd, ht, wd,
                    Mean(HalfVert(Ref(src[..], sp, srcStrd)), Full(Ref(src[..], sp, srcStrd).Shift(NearRow(dydx), 0))))
  {
    hide NearCol, NearRow, PaintedTo, Picture.Value, HalfHorz, HalfVert, HalfBoth, HorzSum, VertSum, CrossSum,
        WeightedAt, ShiftAndAddAt, WeightedSums, Clip, Covers, Fits, Holds, At, Ref.Sample;
    ghost var from := Ref(src[..], sp, srcStrd);
    ghost var pic := Mean(HalfVert(from), Full(from.Shift(NearRow(dydx), 0)));
    PaintStart(dst[..], dp, dstStrd, ht, wd, pic);
    var yOffset := NearRow(dydx);
    Walk(sp, srcStrd, yOffset, 0);
    var s, q, d := sp, sp + yOffset * srcStrd, dp;
    Walk(dp, dstStrd, 0, 0);
    Walk(sp, srcStrd, 0, 0);
    Walk(At(sp, srcStrd, NearRow(dydx), 0), srcStrd, 0, 0);
    for row := 0 to ht
      invariant s == At(sp, srcStrd, row, 0)
      invariant q == At(At(sp, srcStrd, NearRow(dydx), 0), srcStrd, row, 0)
      invariant d == At(dp, dstStrd, row, 0)
      invariant PaintedTo(dst[..], old(dst[..]), dp, dstStrd, ht, wd, pic, row, 0)
    {
      for col := 0 to wd
        invariant PaintedTo(dst[..], old(dst[..]), dp, dstStrd, ht, wd, pic, row, col)
      {
        Reach(dst.Length, dp, dstStrd, 0, ht, 0, wd, row, col);
        Walk(dp, dstStrd, row, col);
        Walk(sp, srcStrd, row, col);
        Walk(At(sp, srcStrd, NearRow(dydx), 0), srcStrd, row, col);
        Down(src, sp, srcStrd, -2, ht + 3, 0, wd, row, col);
        Nearer(src, sp, srcStrd, -2, ht + 3, 0, wd, row, col, yOffset, 0);
        HalfValues(from, row, col);
        MeanValue(HalfVert(from), Full(from.Shift(yOffset, 0)), row, col);
        var temp: I16 := ShiftAndAddAt(src, s + col, srcStrd);
        temp := (temp + 16) / 32;
        temp := Clip(temp);
        PaintNext(dst[..], old(dst[..]), dp, dstStrd, ht, wd, pic, row, col);
        ghost var cur := dst[..];
        dst[d + col] := (temp + src[q + col] + 1) / 2;
        assert dst[..] == cur[d + col := dst[d + col]];
      }
      PaintRow(dst[..], old(dst[..]), dp, dstStrd, ht, wd, pic, row);
      Walk(dp, dstStrd, row, 0);
      Walk(sp, srcStrd, row, 0);
      Walk(At(sp, srcStrd, NearRow(dydx), 0), srcStrd, row, 0);
      s, q, d := s + srcStrd, q + srcStrd, d + dstStrd;
    }
  }

  method HorzQpelVertQpel(src: array<U8>, sp: int, dst: array<U8>, dp: int, srcStrd: int, dstStrd: int, ht: nat,
      wd: nat, dydx: Fractions)
    requires src != dst && dstStrd >= wd && Covers(dst.Length, dp, dstStrd, 0, ht, 0, wd)
    requires ht > 0 ==> Covers(src.Length, At(sp, srcStrd, 0, NearCol(dydx)), srcStrd, -2, ht + 3, 0, wd)
    requires wd > 0 ==> Covers(src.Length, At(sp, srcStrd, NearRow(dydx), 0), srcStrd, 0, ht, -2, wd + 3)
    modifies dst
    ensures Painted(dst[..], old(dst[..]), dp, dstStrd, ht, wd,
                    Mean(HalfVert(Ref(src[..], sp, srcStrd).Shift(0, NearCol(dydx))),
                         HalfHorz(Ref(src[..], sp, srcStrd).Shift(NearRow(dydx), 0))))
  {
    hide NearCol, NearRow, PaintedTo, Picture.Value, HalfHorz, HalfVert, HalfBoth, HorzSum, VertSum, CrossSum,
        WeightedAt, ShiftAndAddAt, WeightedSums, Clip, Covers, Fits, Holds, At, Ref.Sample;
    ghost var from := Ref(src[..], sp, srcStrd);
    ghost var pic := Mean(HalfVert(from.Shift(0, NearCol(dydx))), HalfHorz(from.Shift(NearRow(dydx), 0)));
    PaintStart(dst[..], dp, dstStrd, ht, wd, pic);
    var xOffset, yOffset := NearCol(dydx), NearRow(dydx);
    Walk(sp, srcStrd, 0, xOffset);
    Walk(sp, srcStrd, yOffset, 0);
    var h, v, d := sp + yOffset * srcStrd, sp + xOffset, dp;
    Walk(dp, dstStrd, 0, 0);
    Walk(At(sp, srcStrd, 0, xOffset), srcStrd, 0, 0);
    Walk(At(sp, srcStrd, yOffset, 0), srcStrd, 0, 0);
    for row := 0 to ht
      invariant v == At(At(sp, srcStrd, 0, xOffset), srcStrd, row, 0)
      invariant h == At(At(sp, srcStrd, yOffset, 0), srcStrd, row, 0)
      invariant d == At(dp, dstStrd, row, 0)
      invariant PaintedTo(dst[..], old(dst[..]), dp, dstStrd, ht, wd, pic, row, 0)
    {
      for col := 0 to wd
        invariant PaintedTo(dst[..], old(dst[..]), dp, dstStrd, ht, wd, pic, row, col)
      {
        Reach(dst.Length, dp, dstStrd, 0, ht, 0, wd, row, col);
        Walk(dp, dstStrd, row, col);
        Walk(At(sp, srcStrd, 0, xOffset), srcStrd, row, col);
        Walk(At(sp, srcStrd, yOffset, 0), srcStrd, row, col);
        Down(src, At(sp, srcStrd, 0, xOffset), srcStrd, -2, ht + 3, 0, wd, row, col);
        Across(src, At(sp, srcStrd, yOffset, 0), srcStrd, 0, ht, -2, wd + 3, row, col);
        HalfValues(from.Shift(0, xOffset), row, col);
        HalfValues(from.Shift(yOffset, 0), row, col);
        MeanValue(HalfVert(from.Shift(0, xOffset)), HalfHorz(from.Shift(yOffset, 0)), row, col);
        var tempVert: I16 := ShiftAndAddAt(src, v + col, srcStrd);
        tempVert := (tempVert + 16) / 32;
        tempVert := Clip(tempVert);
        var tempHorz: I16 := ShiftAndAddAt(src, h + col, 1);
        tempHorz := (tempHorz + 16) / 32;
        tempHorz := Clip(tempHorz);
        PaintNext(dst[..], old(dst[..]), dp, dstStrd, ht, wd, pic, row, col);
        ghost var cur := dst[..];
        dst[d + col] := (tempVert + tempHorz + 1) / 2;
        assert dst[..] == cur[d + col := dst[d + col]];
      }
      PaintRow(dst[..], old(dst[..]), dp, dstStrd, ht, wd, pic, row);
      Walk(dp, dstStrd, row, 0);
      Walk(At(sp, srcStrd, 0, xOffset), srcStrd, row, 0);
      Walk(At(sp, srcStrd, yOffset, 0), srcStrd, row, 0);
      v, h, d := v + srcStrd, h + srcStrd, d + dstStrd;
    }
  }

}
