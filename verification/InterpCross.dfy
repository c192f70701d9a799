// The half-half position and the two quarter positions beside it: a pass into
// the scratch buffer, a second filter over the sums, and a last pass that rounds
// the sums in place and averages. The two kernels filter in opposite orders and
// lay the scratch buffer out differently.
module InterpCross {
  import opened Pixels
  import opened Interpolation
  import opened InterpKernels

  lemma RawValues(s: Ref, dr: int, dc: int, r: int, c: int)
    ensures RawHorz(s.Shift(dr, dc)).Value(r, c) == HorzSum(s, r + dr, c + dc)
    ensures RawVert(s.Shift(dr, dc)).Value(r, c) == VertSum(s, r + dr, c + dc)
  {
    ShiftMovesSums(s, dr, dc, r, c);
  }

  // Layout of the scratch buffer after the first pass: wd + 5 sums a row with
  // two on the left, or ht + 5 rows of wd sums with two rows on top.
  ghost predicate VertSums(tmp: seq<I16>, s: Ref, ht: int, wd: int) {
    Holds(tmp, 0, wd + 5, ht, wd + 5, RawVert(s.Shift(0, -2)))
  }

  ghost predicate HorzSums(tmp: seq<I16>, s: Ref, ht: int, wd: int) {
    Holds(tmp, 0, wd, ht + 5, wd, RawHorz(s.Shift(-2, 0)))
  }

  lemma VertSumAt(tmp: seq<I16>, s: Ref, ht: int, wd: int, row: int, col: int)
    requires VertSums(tmp, s, ht, wd) && 0 <= row < ht && -2 <= col < wd + 3
    ensures var i := At(0, wd + 5, row, col + 2); 0 <= i < |tmp| && tmp[i] == VertSum(s, row, col)
  {
    hide Ref.Shift, VertSum;
    RawValues(s, 0, -2, row, col + 2);
  }

  lemma HorzSumAt(tmp: seq<I16>, s: Ref, ht: int, wd: int, row: int, col: int)
    requires HorzSums(tmp, s, ht, wd) && -2 <= row < ht + 3 && 0 <= col < wd
    ensures var i := At(0, wd, row + 2, col); 0 <= i < |tmp| && tmp[i] == HorzSum(s, row, col)
  {
    hide Ref.Shift, HorzSum;
    RawValues(s, -2, 0, row + 2, col);
  }

  lemma StepsDown(p: int, strd: int, row: int, col: int)
    ensures At(p, strd, row - 2, col) == At(p, strd, row, col) - 2 * strd
    ensures At(p, strd, row - 1, col) == At(p, strd, row, col) - strd
    ensures At(p, strd, row + 1, col) == At(p, strd, row, col) + strd
    ensures At(p, strd, row + 2, col) == At(p, strd, row, col) + 2 * strd
    ensures At(p, strd, row + 3, col) == At(p, strd, row, col) + 3 * strd
  {
  }

  // Filtering the sums in the other direction gives the half-half value.
  lemma AcrossSums(tmp: array<I16>, s: Ref, ht: int, wd: int, row: int, col: int)
    requires VertSums(tmp[..], s, ht, wd) && 0 <= row < ht && 0 <= col < wd
    ensures Fits(tmp.Length, At(0, wd + 5, row, col + 2), 1)
    ensures WeightedSums(tmp, At(0, wd + 5, row, col + 2), 1) == CrossSum(s, row, col)
    ensures -0x8000_0000 <= CrossSum(s, row, col) < 0x7FFF_F000
  {
    hide VertSums, VertSum, Weighted, Tap, CrossSum;
    VertSumAt(tmp[..], s, ht, wd, row, col - 2);
    VertSumAt(tmp[..], s, ht, wd, row, col - 1);
    VertSumAt(tmp[..], s, ht, wd, row, col);
    VertSumAt(tmp[..], s, ht, wd, row, col + 1);
    VertSumAt(tmp[..], s, ht, wd, row, col + 2);
    VertSumAt(tmp[..], s, ht, wd, row, col + 3);
    FiltersCommute(s, row, col);
    var i := At(0, wd + 5, row, col + 2);
    SameFilter(tmp[i - 2], tmp[i - 1], tmp[i], tmp[i + 1], tmp[i + 2], tmp[i + 3]);
    SumRange(s, row, col);
  }

  lemma DownSums(tmp: array<I16>, s: Ref, ht: int, wd: int, row: int, col: int)
    requires HorzSums(tmp[..], s, ht, wd) && 0 <= row < ht && 0 <= col < wd
    ensures Fits(tmp.Length, At(0, wd, row + 2, col), wd)
    ensures WeightedSums(tmp, At(0, wd, row + 2, col), wd) == CrossSum(s, row, col)
    ensures -0x8000_0000 <= CrossSum(s, row, col) < 0x7FFF_F000
  {
    hide HorzSums, HorzSum, Weighted, Tap, At;
    HorzSumAt(tmp[..], s, ht, wd, row - 2, col);
    HorzSumAt(tmp[..], s, ht, wd, row - 1, col);
    HorzSumAt(tmp[..], s, ht, wd, row, col);
    HorzSumAt(tmp[..], s, ht, wd, row + 1, col);
    HorzSumAt(tmp[..], s, ht, wd, row + 2, col);
    HorzSumAt(tmp[..], s, ht, wd, row + 3, col);
    StepsDown(0, wd, row + 2, col);
    var i := At(0, wd, row + 2, col);
    SameFilter(tmp[i - 2 * wd], tmp[i - wd], tmp[i], tmp[i + wd], tmp[i + 2 * wd], tmp[i + 3 * wd]);
    SumRange(s, row, col);
  }

  // ---- first passes ----

  method VertPass(src: array<U8>, sp: int, tmp: array<I16>, srcStrd: int, ht: nat, wd: nat)
    requires Covers(tmp.Length, 0, wd + 5, 0, ht, 0, wd + 5)
    requires ht > 0 ==> Covers(src.Length, sp, srcStrd, -2, ht + 3, -2, wd + 3)
    modifies tmp
    ensures Painted(tmp[..], old(tmp[..]), 0, wd + 5, ht, wd + 5, RawVert(Ref(src[..], sp, srcStrd).Shift(0, -2)))
  {
    hide VertSums, HorzSums, PaintedTo, Picture.Value, HalfHorz, HalfVert, HalfBoth, HorzSum, VertSum, CrossSum,
        WeightedAt, ShiftAndAddAt, WeightedSums, Clip, Covers, Fits, Holds, At, Ref.Sample;
    ghost var from := Ref(src[..], sp, srcStrd);
    ghost var pic := RawVert(from.Shift(0, -2));
    PaintStart(tmp[..], 0, wd + 5, ht, wd + 5, pic);
    var s, t := sp, 2;
    Walk(0, wd + 5, 0, 0);
    Walk(sp, srcStrd, 0, 0);
    for row := 0 to ht
      invariant s == At(sp, srcStrd, row, 0) && t == At(0, wd + 5, row, 0) + 2
      invariant PaintedTo(tmp[..], old(tmp[..]), 0, wd + 5, ht, wd + 5, pic, row, 0)
    {
      for col := -2 to wd + 3
        invariant PaintedTo(tmp[..], old(tmp[..]), 0, wd + 5, ht, wd + 5, pic, row, col + 2)
      {
        Reach(tmp.Length, 0, wd + 5, 0, ht, 0, wd + 5, row, col + 2);
        Walk(0, wd + 5, row, col + 2);
        Walk(sp, srcStrd, row, col);
        Down(src, sp, srcStrd, -2, ht + 3, -2, wd + 3, row, col);
        RawValues(from, 0, -2, row, col + 2);
        PaintNext(tmp[..], old(tmp[..]), 0, wd + 5, ht, wd + 5, pic, row, col + 2);
        ghost var cur := tmp[..];
        tmp[t + col] := WeightedAt(src, s + col, srcStrd);
        assert tmp[..] == cur[t + col := tmp[t + col]];
      }
      PaintRow(tmp[..], old(tmp[..]), 0, wd + 5, ht, wd + 5, pic, row);
      Walk(0, wd + 5, row, 0);
      Walk(sp, srcStrd, row, 0);
      s, t := s + srcStrd, t + wd + 5;
    }
  }

  method HorzPass(src: array<U8>, sp: int, tmp: array<I16>, srcStrd: int, ht: nat, wd: nat)
    requires Covers(tmp.Length, 0, wd, 0, ht + 5, 0, wd)
    requires wd > 0 ==> Covers(src.Length, sp, srcStrd, -2, ht + 3, -2, wd + 3)
    modifies tmp
    ensures Painted(tmp[..], old(tmp[..]), 0, wd, ht + 5, wd, RawHorz(Ref(src[..], sp, srcStrd).Shift(-2, 0)))
  {
    hide VertSums, HorzSums, PaintedTo, Picture.Value, HalfHorz, HalfVert, HalfBoth, HorzSum, VertSum, CrossSum,
        WeightedAt, ShiftAndAddAt, WeightedSums, Clip, Covers, Fits, Holds, At, Ref.Sample;
    ghost var from := Ref(src[..], sp, srcStrd);
    ghost var pic := RawHorz(from.Shift(-2, 0));
    PaintStart(tmp[..], 0, wd, ht + 5, wd, pic);
    var s, t := sp - 2 * srcStrd, 2 * wd;
    Walk(0, wd, 0, 0);
    Walk(sp, srcStrd, -2, 0);
    for row := 0 to ht + 5
      invariant s == At(sp, srcStrd, row - 2, 0) && t == At(0, wd, row, 0) + 2 * wd
      invariant PaintedTo(tmp[..], old(tmp[..]), 0, wd, ht + 5, wd, pic, row, 0)
    {
      for col := 0 to wd
        invariant PaintedTo(tmp[..], old(tmp[..]), 0, wd, ht + 5, wd, pic, row, col)
      {
        Reach(tmp.Length, 0, wd, 0, ht + 5, 0, wd, row, col);
        Walk(0, wd, row, col);
        Walk(sp, srcStrd, row - 2, col);
        Across(src, sp, srcStrd, -2, ht + 3, -2, wd + 3, row - 2, col);
        RawValues(from, -2, 0, row, col);
        PaintNext(tmp[..], old(tmp[..]), 0, wd, ht + 5, wd, pic, row, col);
        ghost var cur := tmp[..];
        tmp[t + col - 2 * wd] := WeightedAt(src, s + col, 1);
        assert tmp[..] == cur[t + col - 2 * wd := tmp[t + col - 2 * wd]];
      }
      PaintRow(tmp[..], old(tmp[..]), 0, wd, ht + 5, wd, pic, row);
      Walk(0, wd, row, 0);
      Walk(sp, srcStrd, row - 2, 0);
      s, t := s + srcStrd, t + wd;
    }
  }

  // ---- second passes ----

  method CombineAcross(tmp: array<I16>, dst: array<U8>, dp: int, dstStrd: int, ht: nat, wd: nat, ghost from: Ref)
    requires dstStrd >= wd && Covers(dst.Length, dp, dstStrd, 0, ht, 0, wd) && VertSums(tmp[..], from, ht, wd)
    modifies dst
    ensures Painted(dst[..], old(dst[..]), dp, dstStrd, ht, wd, HalfBoth(from))
  {
    hide VertSums, HorzSums, PaintedTo, Picture.Value, HalfHorz, HalfVert, HalfBoth, HorzSum, VertSum, CrossSum,
        WeightedAt, ShiftAndAddAt, WeightedSums, Clip, Covers, Fits, Holds, At, Ref.Sample;
    ghost var pic := HalfBoth(from);
    PaintStart(dst[..], dp, dstStrd, ht, wd, pic);
    Walk(0, wd + 5, 0, 0);
    var t, d := 2, dp;
    Walk(dp, dstStrd, 0, 0);
    for row := 0 to ht
      invariant t == At(0, wd + 5, row, 0) + 2 && d == At(dp, dstStrd, row, 0)
      invariant PaintedTo(dst[..], old(dst[..]), dp, dstStrd, ht, wd, pic, row, 0)
    {
      for col := 0 to wd
        invariant PaintedTo(dst[..], old(dst[..]), dp, dstStrd, ht, wd, pic, row, col)
      {
        Reach(dst.Length, dp, dstStrd, 0, ht, 0, wd, row, col);
        Walk(dp, dstStrd, row, col);
        Walk(0, wd + 5, row, col + 2);
        AcrossSums(tmp, from, ht, wd, row, col);
        HalfValues(from, row, col);
        var sum: I32 := WeightedSums(tmp, t + col, 1);
        sum := (sum + 512) / 1024;
        PaintNext(dst[..], old(dst[..]), dp, dstStrd, ht, wd, pic, row, col);
        ghost var cur := dst[..];
        dst[d + col] := Clip(sum);
        assert dst[..] == cur[d + col := dst[d + col]];
      }
      PaintRow(dst[..], old(dst[..]), dp, dstStrd, ht, wd, pic, row);
      Walk(dp, dstStrd, row, 0);
      Walk(0, wd + 5, row, 0);
      t, d := t + wd + 5, d + dstStrd;
    }
  }

  method CombineDown(tmp: array<I16>, dst: array<U8>, dp: int, dstStrd: int, ht: nat, wd: nat, ghost from: Ref)
    requires dstStrd >= wd && Covers(dst.Length, dp, dstStrd, 0, ht, 0, wd) && HorzSums(tmp[..], from, ht, wd)
    modifies dst
    ensures Painted(dst[..], old(dst[..]), dp, dstStrd, ht, wd, HalfBoth(from))
  {
    hide VertSums, HorzSums, PaintedTo, Picture.Value, HalfHorz, HalfVert, HalfBoth, HorzSum, VertSum, CrossSum,
        WeightedAt, ShiftAndAddAt, WeightedSums, Clip, Covers, Fits, Holds, At, Ref.Sample;
    ghost var pic := HalfBoth(from);
    PaintStart(dst[..], dp, dstStrd, ht, wd, pic);
    Walk(0, wd, 2, 0);
    var t, d := 2 * wd, dp;
    Walk(dp, dstStrd, 0, 0);
    for row := 0 to ht
      invariant t == At(0, wd, row + 2, 0) && d == At(dp, dstStrd, row, 0)
      invariant PaintedTo(dst[..], old(dst[..]), dp, dstStrd, ht, wd, pic, row, 0)
    {
      for col := 0 to wd
        invariant PaintedTo(dst[..], old(dst[..]), dp, dstStrd, ht, wd, pic, row, col)
      {
        Reach(dst.Length, dp, dstStrd, 0, ht, 0, wd, row, col);
        Walk(dp, dstStrd, row, col);
        Walk(0, wd, row + 2, col);
        DownSums(tmp, from, ht, wd, row, col);
        HalfValues(from, row, col);
        var sum: I32 := WeightedSums(tmp, t + col, wd);
        sum := (sum + 512) / 1024;
        PaintNext(dst[..], old(dst[..]), dp, dstStrd, ht, wd, pic, row, col);
        ghost var cur := dst[..];
        dst[d + col] := Clip(sum);
        assert dst[..] == cur[d + col := dst[d + col]];
      }
      PaintRow(dst[..], old(dst[..]), dp, dstStrd, ht, wd, pic, row);
      Walk(dp, dstStrd, row, 0);
      Walk(0, wd, row + 2, 0);
      t, d := t + wd, d + dstStrd;
    }
  }

  // ---- last pass ----

  // Round each sum in place, and average it into the block. skip is the gap
  // between the rows of sums.
  method Blend(tmp: array<I16>, tp: int, skip: nat, dst: array<U8>, dp: int, dstStrd: int, ht: nat, wd: nat,
               ghost raw: Picture, ghost center: Picture)
    requires dstStrd >= wd && Holds(tmp[..], tp, wd + skip, ht, wd, raw) && Holds(dst[..], dp, dstStrd, ht, wd, center)
    modifies tmp, dst
    ensures Painted(dst[..], old(dst[..]), dp, dstStrd, ht, wd, Mean(center, Clipped(Round5(raw))))
  {
    hide PaintedTo, Picture.Value, Clip, Covers, Holds, At;
    ghost var pic := Mean(center, Clipped(Round5(raw)));
    HoldsCovers(tmp[..], tp, wd + skip, ht, wd, raw);
    HoldsCovers(dst[..], dp, dstStrd, ht, wd, center);
    PaintStart(tmp[..], tp, wd + skip, ht, wd, Round5(raw));
    PaintStart(dst[..], dp, dstStrd, ht, wd, pic);
    Walk(tp, wd + skip, 0, 0);
    Walk(dp, dstStrd, 0, 0);
    var t, d := tp, dp;
    for row := 0 to ht
      invariant t == At(tp, wd + skip, row, 0) && d == At(dp, dstStrd, row, 0)
      invariant PaintedTo(tmp[..], old(tmp[..]), tp, wd + skip, ht, wd, Round5(raw), row, 0)
      invariant PaintedTo(dst[..], old(dst[..]), dp, dstStrd, ht, wd, pic, row, 0)
    {
      for col := 0 to wd
        invariant t == At(tp, wd + skip, row, 0) + col && d == At(dp, dstStrd, row, 0) + col
        invariant PaintedTo(tmp[..], old(tmp[..]), tp, wd + skip, ht, wd, Round5(raw), row, col)
        invariant PaintedTo(dst[..], old(dst[..]), dp, dstStrd, ht, wd, pic, row, col)
      {
        Walk(tp, wd + skip, row, col);
        Walk(dp, dstStrd, row, col);
        HoldsAt(old(tmp[..]), tp, wd + skip, ht, wd, raw, row, col);
        HoldsAt(old(dst[..]), dp, dstStrd, ht, wd, center, row, col);
        BlendValue(raw, center, row, col);
        PaintNext(tmp[..], old(tmp[..]), tp, wd + skip, ht, wd, Round5(raw), row, col);
        PaintNext(dst[..], old(dst[..]), dp, dstStrd, ht, wd, pic, row, col);
        ghost var cur, shown := tmp[..], dst[..];
        tmp[t] := ((tmp[t] as int) + 16) / 32;
        assert tmp[..] == cur[t := tmp[t]];
        var temp := Clip(tmp[t]);
        dst[d] := ((dst[d] as int) + temp + 1) / 2;
        assert dst[..] == shown[d := dst[d]];
        t, d := t + 1, d + 1;
      }
      PaintRow(tmp[..], old(tmp[..]), tp, wd + skip, ht, wd, Round5(raw), row);
      PaintRow(dst[..], old(dst[..]), dp, dstStrd, ht, wd, pic, row);
      Walk(tp, wd + skip, row, 0);
      Walk(dp, dstStrd, row, 0);
      t, d := t + skip, d + (dstStrd - wd);
    }
  }

  lemma HoldsCovers(buf: seq<int>, p: int, strd: int, ht: int, wd: int, pic: Picture)
    requires Holds(buf, p, strd, ht, wd, pic)
    ensures Covers(|buf|, p, strd, 0, ht, 0, wd)
  {
  }

  lemma HoldsAt(buf: seq<int>, p: int, strd: int, ht: int, wd: int, pic: Picture, row: int, col: int)
    requires Holds(buf, p, strd, ht, wd, pic) && 0 <= row < ht && 0 <= col < wd
    ensures 0 <= At(p, strd, row, col) < |buf| && buf[At(p, strd, row, col)] == pic.Value(row, col)
  {
  }

  lemma BlendValue(raw: Picture, center: Picture, r: int, c: int)
    ensures Round5(raw).Value(r, c) == (raw.Value(r, c) + 16) / 32
    ensures Mean(center, Clipped(Round5(raw))).Value(r, c)
            == (center.Value(r, c) + Clip(Round5(raw).Value(r, c)) + 1) / 2
  {
    assert Clipped(Round5(raw)).Value(r, c) == Clip(Round5(raw).Value(r, c));
  }

  lemma VertSumsLeft(tmp: seq<I16>, before: seq<I16>, s: Ref, ht: int, wd: int)
    requires Painted(tmp, before, 0, wd + 5, ht, wd + 5, RawVert(s.Shift(0, -2)))
    ensures VertSums(tmp, s, ht, wd)
  {
    PaintedHolds(tmp, before, 0, wd + 5, ht, wd + 5, RawVert(s.Shift(0, -2)));
  }

  lemma HorzSumsLeft(tmp: seq<I16>, before: seq<I16>, s: Ref, ht: int, wd: int)
    requires Painted(tmp, before, 0, wd, ht + 5, wd, RawHorz(s.Shift(-2, 0)))
    ensures HorzSums(tmp, s, ht, wd)
  {
    PaintedHolds(tmp, before, 0, wd, ht + 5, wd, RawHorz(s.Shift(-2, 0)));
  }

  // The sums of the block beside the left margin, or below the top one.
  lemma BesideMargin(tmp: seq<I16>, s: Ref, ht: int, wd: int, dc: int)
    requires VertSums(tmp, s, ht, wd) && 0 <= dc <= 1
    ensures Holds(tmp, 2 + dc, wd + 5, ht, wd, RawVert(s.Shift(0, dc)))
  {
    hide VertSums, VertSum, Ref.Shift;
    forall r, c {:trigger At(2 + dc, wd + 5, r, c)} | 0 <= r < ht && 0 <= c < wd
      ensures 0 <= At(2 + dc, wd + 5, r, c) < |tmp|
      ensures tmp[At(2 + dc, wd + 5, r, c)] == RawVert(s.Shift(0, dc)).Value(r, c)
    {
      VertSumAt(tmp, s, ht, wd, r, c + dc);
      RawValues(s, 0, dc, r, c);
    }
  }

  lemma BelowMargin(tmp: seq<I16>, s: Ref, ht: int, wd: int, dr: int)
    requires HorzSums(tmp, s, ht, wd) && 0 <= dr <= 1
    ensures Holds(tmp, (2 + dr) * wd, wd, ht, wd, RawHorz(s.Shift(dr, 0)))
  {
    hide HorzSums, HorzSum, Ref.Shift;
    forall r, c {:trigger At((2 + dr) * wd, wd, r, c)} | 0 <= r < ht && 0 <= c < wd
      ensures 0 <= At((2 + dr) * wd, wd, r, c) < |tmp|
      ensures tmp[At((2 + dr) * wd, wd, r, c)] == RawHorz(s.Shift(dr, 0)).Value(r, c)
    {
      assert (r + dr + 2) * wd == (2 + dr) * wd + r * wd;
      HorzSumAt(tmp, s, ht, wd, r + dr, c);
      RawValues(s, dr, 0, r, c);
    }
  }

  // ---- the kernels ----

  method HorzHpelVertHpel(src: array<U8>, sp: int, dst: array<U8>, dp: int, srcStrd: int, dstStrd: int, ht: nat,
      wd: nat, tmp: array<I16>)
    requires src != dst && dstStrd >= wd && Covers(dst.Length, dp, dstStrd, 0, ht, 0, wd)
    requires ht > 0 ==> Covers(src.Length, sp, srcStrd, -2, ht + 3, -2, wd + 3)
    requires Covers(tmp.Length, 0, wd + 5, 0, ht, 0, wd + 5)
    modifies dst, tmp
    ensures Painted(dst[..], old(dst[..]), dp, dstStrd, ht, wd, HalfBoth(Ref(src[..], sp, srcStrd)))
  {
    hide Painted, Covers, HalfBoth, Ref.Shift, VertSums;
    ghost var from := Ref(src[..], sp, srcStrd);
    ghost var scratch := tmp[..];
    VertPass(src, sp, tmp, srcStrd, ht, wd);
    VertSumsLeft(tmp[..], scratch, from, ht, wd);
    CombineAcross(tmp, dst, dp, dstStrd, ht, wd, from);
  }

  method HorzQpelVertHpel(src: array<U8>, sp: int, dst: array<U8>, dp: int, srcStrd: int, dstStrd: int, ht: nat,
      wd: nat, tmp: array<I16>, dydx: Fractions)
    requires src != dst && dstStrd >= wd && Covers(dst.Length, dp, dstStrd, 0, ht, 0, wd)
    requires ht > 0 ==> Covers(src.Length, sp, srcStrd, -2, ht + 3, -2, wd + 3)
    requires Covers(tmp.Length, 0, wd + 5, 0, ht, 0, wd + 5)
    modifies dst, tmp
    ensures Painted(dst[..], old(dst[..]), dp, dstStrd, ht, wd,
                    Mean(HalfBoth(Ref(src[..], sp, srcStrd)),
                         HalfVert(Ref(src[..], sp, srcStrd).Shift(0, NearCol(dydx)))))
  {
    hide Painted, Covers, HalfBoth, Ref.Shift, VertSums, Holds;
    var xOffset := NearCol(dydx);
    ghost var from := Ref(src[..], sp, srcStrd);
    ghost var first := dst[..];
    ghost var scratch := tmp[..];
    VertPass(src, sp, tmp, srcStrd, ht, wd);
    VertSumsLeft(tmp[..], scratch, from, ht, wd);
    CombineAcross(tmp, dst, dp, dstStrd, ht, wd, from);
    ghost var middle := dst[..];
    BesideMargin(tmp[..], from, ht, wd, xOffset);
    PaintedHolds(middle, first, dp, dstStrd, ht, wd, HalfBoth(from));
    Blend(tmp, 2 + xOffset, 5, dst, dp, dstStrd, ht, wd, RawVert(from.Shift(0, xOffset)), HalfBoth(from));
    Repaint(dst[..], middle, first, dp, dstStrd, ht, wd, HalfBoth(from),
        Mean(HalfBoth(from), HalfVert(from.Shift(0, xOffset))));
  }

  method HorzHpelVertQpel(src: array<U8>, sp: int, dst: array<U8>, dp: int, srcStrd: int, dstStrd: int, ht: nat,
      wd: nat, tmp: array<I16>, dydx: Fractions)
    requires src != dst && dstStrd >= wd && Covers(dst.Length, dp, dstStrd, 0, ht, 0, wd)
    requires wd > 0 ==> Covers(src.Length, sp, srcStrd, -2, ht + 3, -2, wd + 3)
    requires Covers(tmp.Length, 0, wd, 0, ht + 5, 0, wd)
    modifies dst, tmp
    ensures Painted(dst[..], old(dst[..]), dp, dstStrd, ht, wd,
                    Mean(HalfBoth(Ref(src[..], sp, srcStrd)),
                         HalfHorz(Ref(src[..], sp, srcStrd).Shift(NearRow(dydx), 0))))
  {
    hide Painted, Covers, HalfBoth, Ref.Shift, HorzSums, Holds;
    var yOffset := NearRow(dydx);
    ghost var from := Ref(src[..], sp, srcStrd);
    ghost var first := dst[..];
    ghost var scratch := tmp[..];
    HorzPass(src, sp, tmp, srcStrd, ht, wd);
    HorzSumsLeft(tmp[..], scratch, from, ht, wd);
    CombineDown(tmp, dst, dp, dstStrd, ht, wd, from);
    ghost var middle := dst[..];
    BelowMargin(tmp[..], from, ht, wd, yOffset);
    PaintedHolds(middle, first, dp, dstStrd, ht, wd, HalfBoth(from));
    Blend(tmp, (2 + yOffset) * wd, 0, dst, dp, dstStrd, ht, wd, RawHorz(from.Shift(yOffset, 0)), HalfBoth(from));
    Repaint(dst[..], middle, first, dp, dstStrd, ht, wd, HalfBoth(from),
        Mean(HalfBoth(from), HalfHorz(from.Shift(yOffset, 0))));
  }
}
