// Every fused quarter-sample kernel computes what running the simple kernels
// into separate buffers and averaging these would.
module InterpFusion {
  import opened Pixels
  import opened Interpolation
  import opened InterpKernels
  import opened InterpCross

  lemma PaintedUnique(x: seq<int>, y: seq<int>, before: seq<int>, p: int, strd: int, ht: int, wd: int, pic: Picture)
    requires Painted(x, before, p, strd, ht, wd, pic) && Painted(y, before, p, strd, ht, wd, pic)
    ensures x == y
  {
    forall i | 0 <= i < |before| ensures x[i] == y[i] {
    }
  }

  lemma RowsFit(ht: nat, wd: nat, r: nat)
    requires r < ht
    ensures 0 <= r * wd && r * wd + wd <= ht * wd
  {
    Apart(ht - r, wd);
    assert (ht - r) * wd == ht * wd - r * wd;
    if r > 0 {
      Apart(r, wd);
    }
  }

  // A block of its own, row after row.
  lemma PlainCovers(ht: nat, wd: nat)
    ensures 0 <= ht * wd && Covers(ht * wd, 0, wd, 0, ht, 0, wd)
  {
    if ht > 0 {
      Apart(ht, wd);
    }
    forall r, c {:trigger At(0, wd, r, c)} | 0 <= r < ht && 0 <= c < wd ensures 0 <= At(0, wd, r, c) < ht * wd {
      RowsFit(ht, wd, r);
    }
  }

  // A rectangle that lies in a covered one when moved.
  lemma MovedCovers(length: nat, p: int, strd: int, r0: int, r1: int, c0: int, c1: int, dr: int, dc: int, s0: int,
      s1: int, d0: int, d1: int)
    requires s0 < s1 && d0 < d1 ==> Covers(length, p, strd, r0, r1, c0, c1)
    requires r0 <= s0 + dr && s1 + dr <= r1 && c0 <= d0 + dc && d1 + dc <= c1
    ensures Covers(length, At(p, strd, dr, dc), strd, s0, s1, d0, d1)
  {
    forall r, c {:trigger At(At(p, strd, dr, dc), strd, r, c)} | s0 <= r < s1 && d0 <= c < d1
      ensures 0 <= At(At(p, strd, dr, dc), strd, r, c) < length
    {
      assert (r + dr) * strd == r * strd + dr * strd;
      assert 0 <= At(p, strd, r + dr, c + dc) < length;
    }
  }

  // Averaging two buffers that hold two pictures averages the pictures.
  lemma AverageOf(out: seq<U8>, before: seq<U8>, p: int, strd: int, ht: int, wd: int, a: Ref, b: Ref, picA: Picture,
      picB: Picture)
    requires Painted(out, before, p, strd, ht, wd, Mean(Full(a), Full(b)))
    requires forall r, c :: 0 <= r < ht && 0 <= c < wd ==>
               a.Sample(r, c) == picA.Value(r, c) && b.Sample(r, c) == picB.Value(r, c)
    ensures Painted(out, before, p, strd, ht, wd, Mean(picA, picB))
  {
    hide Painted, Ref.Sample;
    forall r, c | 0 <= r < ht && 0 <= c < wd
      ensures Mean(Full(a), Full(b)).Value(r, c) == Mean(picA, picB).Value(r, c)
    {
      MeanValue(Full(a), Full(b), r, c);
      assert a.Sample(r, c) == picA.Value(r, c);
    }
    PaintAlike(out, before, p, strd, ht, wd, Mean(Full(a), Full(b)), Mean(picA, picB));
  }

  lemma Held(buf: seq<U8>, before: seq<U8>, ht: int, wd: int, pic: Picture)
    requires Painted(buf, before, 0, wd, ht, wd, pic)
    ensures forall r, c :: 0 <= r < ht && 0 <= c < wd ==> Ref(buf, 0, wd).Sample(r, c) == pic.Value(r, c)
  {
    hide Painted, Ref.Sample;
    forall r, c | 0 <= r < ht && 0 <= c < wd ensures Ref(buf, 0, wd).Sample(r, c) == pic.Value(r, c) {
      ReadBack(buf, before, 0, wd, ht, wd, pic, r, c);
    }
  }

  // Horizontal quarter: horizontal half and the nearer whole sample.
  method HorzQpelByParts(src: array<U8>, sp: int, fused: array<U8>, parts: array<U8>, dp: int, srcStrd: int,
      dstStrd: int, ht: nat, wd: nat, dydx: Fractions)
    requires src != fused && src != parts && fused != parts && fused[..] == parts[..]
    requires dstStrd >= wd && Covers(fused.Length, dp, dstStrd, 0, ht, 0, wd)
    requires wd > 0 ==> Covers(src.Length, sp, srcStrd, 0, ht, -2, wd + 3)
    modifies fused, parts
    ensures fused[..] == parts[..]
    ensures var s := Ref(src[..], sp, srcStrd);
            Painted(parts[..], old(parts[..]), dp, dstStrd, ht, wd,
                    Mean(HalfHorz(s), Full(s.Shift(0, NearCol(dydx)))))
  {
    hide NearCol, NearRow, Painted, Covers, HalfHorz, HalfVert, HalfBoth;
    ghost var from, before := Ref(src[..], sp, srcStrd), fused[..];
    Walk(sp, srcStrd, 0, NearCol(dydx));
    Walk(sp, srcStrd, NearRow(dydx), 0);
    HorzQpel(src, sp, fused, dp, srcStrd, dstStrd, ht, wd, dydx);
    PlainCovers(ht, wd);
    MovedCovers(src.Length, sp, srcStrd, 0, ht, -2, wd + 3, 0, NearCol(dydx), 0, ht, 0, wd);
    var a := new U8[ht * wd];
    ghost var a0 := a[..];
    Horz(src, sp, a, 0, srcStrd, wd, ht, wd);
    Held(a[..], a0, ht, wd, HalfHorz(from));
    Bilinear(a, 0, src, sp + NearCol(dydx), parts, dp, wd, srcStrd, dstStrd, ht, wd);
    AverageOf(parts[..], before, dp, dstStrd, ht, wd, Ref(a[..], 0, wd), from.Shift(0, NearCol(dydx)), HalfHorz(from),
        Full(from.Shift(0, NearCol(dydx))));
    PaintedUnique(fused[..], parts[..], before, dp, dstStrd, ht, wd, Mean(HalfHorz(from), Full(from.Shift(0,
        NearCol(dydx)))));
  }

  // Vertical quarter: vertical half and the nearer whole sample.
  method VertQpelByParts(src: array<U8>, sp: int, fused: array<U8>, parts: array<U8>, dp: int, srcStrd: int,
      dstStrd: int, ht: nat, wd: nat, dydx: Fractions)
    requires src != fused && src != parts && fused != parts && fused[..] == parts[..]
    requires dstStrd >= wd && Covers(fused.Length, dp, dstStrd, 0, ht, 0, wd)
    requires ht > 0 ==> Covers(src.Length, sp, srcStrd, -2, ht + 3, 0, wd)
    modifies fused, parts
    ensures fused[..] == parts[..]
    ensures var s := Ref(src[..], sp, srcStrd);
            Painted(parts[..], old(parts[..]), dp, dstStrd, ht, wd,
                    Mean(HalfVert(s), Full(s.Shift(NearRow(dydx), 0))))
  {
    hide NearCol, NearRow, Painted, Covers, HalfHorz, HalfVert, HalfBoth;
    ghost var from, before := Ref(src[..], sp, srcStrd), fused[..];
    Walk(sp, srcStrd, 0, NearCol(dydx));
    Walk(sp, srcStrd, NearRow(dydx), 0);
    VertQpel(src, sp, fused, dp, srcStrd, dstStrd, ht, wd, dydx);
    PlainCovers(ht, wd);
    MovedCovers(src.Length, sp, srcStrd, -2, ht + 3, 0, wd, NearRow(dydx), 0, 0, ht, 0, wd);
    var a := new U8[ht * wd];
    ghost var a0 := a[..];
    Vert(src, sp, a, 0, srcStrd, wd, ht, wd);
    Held(a[..], a0, ht, wd, HalfVert(from));
    Bilinear(a, 0, src, sp + NearRow(dydx) * srcStrd, parts, dp, wd, srcStrd, dstStrd, ht, wd);
    AverageOf(parts[..], before, dp, dstStrd, ht, wd, Ref(a[..], 0, wd), from.Shift(NearRow(dydx), 0), HalfVert(from),
        Full(from.Shift(NearRow(dydx), 0)));
    PaintedUnique(fused[..], parts[..], before, dp, dstStrd, ht, wd, Mean(HalfVert(from),
        Full(from.Shift(NearRow(dydx), 0))));
  }

  // Diagonal quarter: vertical half in the nearer column, horizontal half in the nearer row.
  method DiagonalByParts(src: array<U8>, sp: int, fused: array<U8>, parts: array<U8>, dp: int, srcStrd: int,
      dstStrd: int, ht: nat, wd: nat, dydx: Fractions)
    requires src != fused && src != parts && fused != parts && fused[..] == parts[..]
    requires dstStrd >= wd && Covers(fused.Length, dp, dstStrd, 0, ht, 0, wd)
    requires ht > 0 ==> Covers(src.Length, At(sp, srcStrd, 0, NearCol(dydx)), srcStrd, -2, ht + 3, 0, wd)
    requires wd > 0 ==> Covers(src.Length, At(sp, srcStrd, NearRow(dydx), 0), srcStrd, 0, ht, -2, wd + 3)
    modifies fused, parts
    ensures fused[..] == parts[..]
    ensures var s := Ref(src[..], sp, srcStrd);
            Painted(parts[..], old(parts[..]), dp, dstStrd, ht, wd,
                    Mean(HalfVert(s.Shift(0, NearCol(dydx))), HalfHorz(s.Shift(NearRow(dydx), 0))))
  {
    hide NearCol, NearRow, Painted, Covers, HalfHorz, HalfVert, HalfBoth;
    ghost var from, before := Ref(src[..], sp, srcStrd), fused[..];
    Walk(sp, srcStrd, 0, NearCol(dydx));
    Walk(sp, srcStrd, NearRow(dydx), 0);
    HorzQpelVertQpel(src, sp, fused, dp, srcStrd, dstStrd, ht, wd, dydx);
    PlainCovers(ht, wd);
    var a := new U8[ht * wd];
    ghost var a0 := a[..];
    Vert(src, sp + NearCol(dydx), a, 0, srcStrd, wd, ht, wd);
    Held(a[..], a0, ht, wd, HalfVert(from.Shift(0, NearCol(dydx))));
    var b := new U8[ht * wd];
    ghost var b0 := b[..];
    Horz(src, sp + NearRow(dydx) * srcStrd, b, 0, srcStrd, wd, ht, wd);
    Held(b[..], b0, ht, wd, HalfHorz(from.Shift(NearRow(dydx), 0)));
    Bilinear(a, 0, b, 0, parts, dp, wd, wd, dstStrd, ht, wd);
    AverageOf(parts[..], before, dp, dstStrd, ht, wd, Ref(a[..], 0, wd), Ref(b[..], 0, wd), HalfVert(from.Shift(0,
        NearCol(dydx))), HalfHorz(from.Shift(NearRow(dydx), 0)));
    PaintedUnique(fused[..], parts[..], before, dp, dstStrd, ht, wd, Mean(HalfVert(from.Shift(0, NearCol(dydx))),
        HalfHorz(from.Shift(NearRow(dydx), 0))));
  }

  // Half-half position and the vertical half in the nearer column.
  method QpelVertHpelByParts(src: array<U8>, sp: int, fused: array<U8>, parts: array<U8>, dp: int, srcStrd: int,
      dstStrd: int, ht: nat, wd: nat, tmp: array<I16>, dydx: Fractions)
    requires src != fused && src != parts && fused != parts && fused[..] == parts[..]
    requires dstStrd >= wd && Covers(fused.Length, dp, dstStrd, 0, ht, 0, wd)
    requires ht > 0 ==> Covers(src.Length, sp, srcStrd, -2, ht + 3, -2, wd + 3)
    requires Covers(tmp.Length, 0, wd + 5, 0, ht, 0, wd + 5)
    modifies fused, parts, tmp
    ensures fused[..] == parts[..]
    ensures var s := Ref(src[..], sp, srcStrd);
            Painted(parts[..], old(parts[..]), dp, dstStrd, ht, wd,
                    Mean(HalfBoth(s), HalfVert(s.Shift(0, NearCol(dydx)))))
  {
    hide NearCol, NearRow, Painted, Covers, HalfHorz, HalfVert, HalfBoth;
    ghost var from, before := Ref(src[..], sp, srcStrd), fused[..];
    Walk(sp, srcStrd, 0, NearCol(dydx));
    Walk(sp, srcStrd, NearRow(dydx), 0);
    HorzQpelVertHpel(src, sp, fused, dp, srcStrd, dstStrd, ht, wd, tmp, dydx);
    PlainCovers(ht, wd);
    if ht > 0 {
      MovedCovers(src.Length, sp, srcStrd, -2, ht + 3, -2, wd + 3, 0, NearCol(dydx), -2, ht + 3, 0, wd);
    }
    var a := new U8[ht * wd];
    ghost var a0 := a[..];
    HorzHpelVertHpel(src, sp, a, 0, srcStrd, wd, ht, wd, tmp);
    Held(a[..], a0, ht, wd, HalfBoth(from));
    var b := new U8[ht * wd];
    ghost var b0 := b[..];
    Vert(src, sp + NearCol(dydx), b, 0, srcStrd, wd, ht, wd);
    Held(b[..], b0, ht, wd, HalfVert(from.Shift(0, NearCol(dydx))));
    Bilinear(a, 0, b, 0, parts, dp, wd, wd, dstStrd, ht, wd);
    AverageOf(parts[..], before, dp, dstStrd, ht, wd, Ref(a[..], 0, wd), Ref(b[..], 0, wd), HalfBoth(from),
        HalfVert(from.Shift(0, NearCol(dydx))));
    PaintedUnique(fused[..], parts[..], before, dp, dstStrd, ht, wd, Mean(HalfBoth(from), HalfVert(from.Shift(0,
        NearCol(dydx)))));
  }

  // Half-half position and the horizontal half in the nearer row; here the halves are
  // found horizontally first in one kernel and vertically first in the other.
  method HpelVertQpelByParts(src: array<U8>, sp: int, fused: array<U8>, parts: array<U8>, dp: int, srcStrd: int,
      dstStrd: int, ht: nat, wd: nat, tmp: array<I16>, dydx: Fractions)
    requires src != fused && src != parts && fused != parts && fused[..] == parts[..]
    requires dstStrd >= wd && Covers(fused.Length, dp, dstStrd, 0, ht, 0, wd)
    requires ht > 0 || wd > 0 ==> Covers(src.Length, sp, srcStrd, -2, ht + 3, -2, wd + 3)
    requires Covers(tmp.Length, 0, wd, 0, ht + 5, 0, wd) && Covers(tmp.Length, 0, wd + 5, 0, ht, 0, wd + 5)
    modifies fused, parts, tmp
    ensures fused[..] == parts[..]
    ensures var s := Ref(src[..], sp, srcStrd);
            Painted(parts[..], old(parts[..]), dp, dstStrd, ht, wd,
                    Mean(HalfBoth(s), HalfHorz(s.Shift(NearRow(dydx), 0))))
  {
    hide NearCol, NearRow, Painted, Covers, HalfHorz, HalfVert, HalfBoth;
    ghost var from, before := Ref(src[..], sp, srcStrd), fused[..];
    Walk(sp, srcStrd, 0, NearCol(dydx));
    Walk(sp, srcStrd, NearRow(dydx), 0);
    HorzHpelVertQpel(src, sp, fused, dp, srcStrd, dstStrd, ht, wd, tmp, dydx);
    PlainCovers(ht, wd);
    if wd > 0 {
      MovedCovers(src.Length, sp, srcStrd, -2, ht + 3, -2, wd + 3, NearRow(dydx), 0, 0, ht, -2, wd + 3);
    }
    var a := new U8[ht * wd];
    ghost var a0 := a[..];
    HorzHpelVertHpel(src, sp, a, 0, srcStrd, wd, ht, wd, tmp);
    Held(a[..], a0, ht, wd, HalfBoth(from));
    var b := new U8[ht * wd];
    ghost var b0 := b[..];
    Horz(src, sp + NearRow(dydx) * srcStrd, b, 0, srcStrd, wd, ht, wd);
    Held(b[..], b0, ht, wd, HalfHorz(from.Shift(NearRow(dydx), 0)));
    Bilinear(a, 0, b, 0, parts, dp, wd, wd, dstStrd, ht, wd);
    AverageOf(parts[..], before, dp, dstStrd, ht, wd, Ref(a[..], 0, wd), Ref(b[..], 0, wd), HalfBoth(from),
        HalfHorz(from.Shift(NearRow(dydx), 0)));
    PaintedUnique(fused[..], parts[..], before, dp, dstStrd, ht, wd, Mean(HalfBoth(from),
        HalfHorz(from.Shift(NearRow(dydx), 0))));
  }
}
