// Luma sample interpolation (section 8.4.2.2.1 of H.264) as pictures: a picture
// gives a value for every row and column.
module Interpolation {
  import opened Pixels

  // A picture stored in a buffer. Samples outside the buffer count as 0; the
  // filters prove that they never read one.
  datatype Ref = Ref(buf: seq<U8>, p: int, strd: int) {
    function Sample(r: int, c: int): U8 {
      var i := At(p, strd, r, c);
      if 0 <= i < |buf| then buf[i] else 0
    }

    // The same picture with its origin moved.
    function Shift(dr: int, dc: int): Ref {
      Ref(buf, At(p, strd, dr, dc), strd)
    }
  }

  // The six-tap filter (1, -5, 20, 20, -5, 1).
  function Tap(a: int, b: int, c: int, d: int, e: int, f: int): int {
    a - 5 * b + 20 * c + 20 * d - 5 * e + f
  }

  function HorzSum(s: Ref, r: int, c: int): int {
    Tap(s.Sample(r, c - 2), s.Sample(r, c - 1), s.Sample(r, c),
        s.Sample(r, c + 1), s.Sample(r, c + 2), s.Sample(r, c + 3))
  }

  function VertSum(s: Ref, r: int, c: int): int {
    Tap(s.Sample(r - 2, c), s.Sample(r - 1, c), s.Sample(r, c),
        s.Sample(r + 1, c), s.Sample(r + 2, c), s.Sample(r + 3, c))
  }

  // The unrounded value at the half-half position, horizontal filter first.
  function CrossSum(s: Ref, r: int, c: int): int {
    Tap(HorzSum(s, r - 2, c), HorzSum(s, r - 1, c), HorzSum(s, r, c),
        HorzSum(s, r + 1, c), HorzSum(s, r + 2, c), HorzSum(s, r + 3, c))
  }

  datatype Picture =
    | Full(src: Ref)
    | RawHorz(src: Ref) | RawVert(src: Ref) | RawBoth(src: Ref)
    | Round5(a: Picture) | Round10(a: Picture) | Clipped(a: Picture)
    | Mean(a: Picture, b: Picture)
  {
    function Value(r: int, c: int): int {
      match this
      case Full(s) => s.Sample(r, c)
      case RawHorz(s) => HorzSum(s, r, c)
      case RawVert(s) => VertSum(s, r, c)
      case RawBoth(s) => CrossSum(s, r, c)
      case Round5(a) => (a.Value(r, c) + 16) / 32
      case Round10(a) => (a.Value(r, c) + 512) / 1024
      case Clipped(a) => Clip(a.Value(r, c))
      case Mean(a, b) => (a.Value(r, c) + b.Value(r, c) + 1) / 2
    }
  }

  // The half-sample positions: b, h and j of the standard.
  function HalfHorz(s: Ref): Picture { Clipped(Round5(RawHorz(s))) }

  function HalfVert(s: Ref): Picture { Clipped(Round5(RawVert(s))) }

  function HalfBoth(s: Ref): Picture { Clipped(Round10(RawBoth(s))) }

  lemma HalfValues(s: Ref, r: int, c: int)
    ensures HalfHorz(s).Value(r, c) == Clip((HorzSum(s, r, c) + 16) / 32)
    ensures HalfVert(s).Value(r, c) == Clip((VertSum(s, r, c) + 16) / 32)
    ensures HalfBoth(s).Value(r, c) == Clip((CrossSum(s, r, c) + 512) / 1024)
  {
    assert Round5(RawHorz(s)).Value(r, c) == (HorzSum(s, r, c) + 16) / 32;
    assert Round5(RawVert(s)).Value(r, c) == (VertSum(s, r, c) + 16) / 32;
    assert Round10(RawBoth(s)).Value(r, c) == (CrossSum(s, r, c) + 512) / 1024;
  }

  // Filtering vertically first gives the same value.
  lemma FiltersCommute(s: Ref, r: int, c: int)
    ensures CrossSum(s, r, c) ==
            Tap(VertSum(s, r, c - 2), VertSum(s, r, c - 1), VertSum(s, r, c),
                VertSum(s, r, c + 1), VertSum(s, r, c + 2), VertSum(s, r, c + 3))
  {
  }

  lemma ShiftMoves(s: Ref, dr: int, dc: int)
    ensures forall r, c :: s.Shift(dr, dc).Sample(r, c) == s.Sample(r + dr, c + dc)
  {
    forall r, c ensures s.Shift(dr, dc).Sample(r, c) == s.Sample(r + dr, c + dc) {
      assert (r + dr) * s.strd == r * s.strd + dr * s.strd;
    }
  }

  lemma ShiftMovesSums(s: Ref, dr: int, dc: int, r: int, c: int)
    ensures HorzSum(s.Shift(dr, dc), r, c) == HorzSum(s, r + dr, c + dc)
    ensures VertSum(s.Shift(dr, dc), r, c) == VertSum(s, r + dr, c + dc)
  {
    hide Ref.Shift, Ref.Sample;
    ShiftMoves(s, dr, dc);
  }

  // Ranges that make every narrowing store exact.
  lemma SumRange(s: Ref, r: int, c: int)
    ensures -2550 <= HorzSum(s, r, c) <= 10710 && -2550 <= VertSum(s, r, c) <= 10710
    ensures -0x8000_0000 <= CrossSum(s, r, c) < 0x8000_0000
  {
  }

  // Row r, column c comes before row, col in raster order.
  predicate Earlier(r: int, c: int, row: int, col: int) {
    r < row || (r == row && c < col)
  }

  // Index i belongs to a sample of the block that comes before (row, col).
  ghost predicate Reached(i: int, p: int, strd: int, ht: int, wd: int, row: int, col: int) {
    exists r, c {:trigger At(p, strd, r, c)} ::
      0 <= r < ht && 0 <= c < wd && Earlier(r, c, row, col) && i == At(p, strd, r, c)
  }

  // Writing the picture into a block of a buffer, in raster order, has reached
  // (row, col): the earlier samples of the block hold the picture, everything
  // else is as before.
  ghost predicate PaintedTo(after: seq<int>, before: seq<int>, p: int, strd: int, ht: int, wd: int, pic: Picture,
      row: int, col: int) {
    && |after| == |before|
    && Covers(|after|, p, strd, 0, ht, 0, wd)
    && (forall r, c {:trigger At(p, strd, r, c)} :: 0 <= r < ht && 0 <= c < wd && Earlier(r, c, row, col) ==>
          after[At(p, strd, r, c)] == pic.Value(r, c))
    && (forall i {:trigger after[i]} :: 0 <= i < |after| && !Reached(i, p, strd, ht, wd, row, col) ==>
          after[i] == before[i])
  }

  // The block holds the picture, and nothing outside it has changed.
  ghost predicate Painted(after: seq<int>, before: seq<int>, p: int, strd: int, ht: int, wd: int, pic: Picture) {
    PaintedTo(after, before, p, strd, ht, wd, pic, ht, 0)
  }

  // The block of the buffer holds the picture.
  ghost predicate Holds(buf: seq<int>, p: int, strd: int, ht: int, wd: int, pic: Picture) {
    && Covers(|buf|, p, strd, 0, ht, 0, wd)
    && forall r, c {:trigger At(p, strd, r, c)} :: 0 <= r < ht && 0 <= c < wd ==>
         buf[At(p, strd, r, c)] == pic.Value(r, c)
  }

  lemma PaintStart(before: seq<int>, p: int, strd: int, ht: int, wd: int, pic: Picture)
    requires Covers(|before|, p, strd, 0, ht, 0, wd)
    ensures PaintedTo(before, before, p, strd, ht, wd, pic, 0, 0)
  {
  }

  lemma PaintNext(cur: seq<int>, before: seq<int>, p: int, strd: int, ht: int, wd: int, pic: Picture, row: int,
      col: int)
    requires PaintedTo(cur, before, p, strd, ht, wd, pic, row, col)
    requires 0 <= row < ht && 0 <= col < wd <= strd && 0 <= At(p, strd, row, col) < |cur|
    ensures cur[At(p, strd, row, col)] == before[At(p, strd, row, col)]
    ensures PaintedTo(cur[At(p, strd, row, col) := pic.Value(row, col)], before, p, strd, ht, wd, pic, row, col + 1)
  {
    hide Picture.Value;
    var here := At(p, strd, row, col);
    var next := cur[here := pic.Value(row, col)];
    forall r, c | 0 <= r < ht && 0 <= c < wd && At(p, strd, r, c) == here
      ensures r == row && c == col
    {
      OnePlace(p, strd, wd, r, c, row, col);
    }
    assert Reached(here, p, strd, ht, wd, row, col + 1);
    forall i | 0 <= i < |next| && !Reached(i, p, strd, ht, wd, row, col + 1)
      ensures next[i] == before[i]
    {
      assert !Reached(i, p, strd, ht, wd, row, col);
    }
  }

  lemma PaintRow(cur: seq<int>, before: seq<int>, p: int, strd: int, ht: int, wd: int, pic: Picture, row: int)
    requires PaintedTo(cur, before, p, strd, ht, wd, pic, row, wd)
    ensures PaintedTo(cur, before, p, strd, ht, wd, pic, row + 1, 0)
  {
    hide Picture.Value;
    forall i | 0 <= i < |cur| && !Reached(i, p, strd, ht, wd, row + 1, 0)
      ensures cur[i] == before[i]
    {
      assert !Reached(i, p, strd, ht, wd, row, wd);
    }
  }

  // Painting a block twice leaves the second picture.
  lemma Repaint(last: seq<int>, middle: seq<int>, first: seq<int>, p: int, strd: int, ht: int, wd: int, a: Picture,
      b: Picture)
    requires Painted(middle, first, p, strd, ht, wd, a) && Painted(last, middle, p, strd, ht, wd, b)
    ensures Painted(last, first, p, strd, ht, wd, b)
  {
  }

  lemma PaintedHolds(after: seq<int>, before: seq<int>, p: int, strd: int, ht: int, wd: int, pic: Picture)
    requires Painted(after, before, p, strd, ht, wd, pic)
    ensures Holds(after, p, strd, ht, wd, pic)
  {
  }

  // A block that holds a picture, read back as a source.
  lemma ReadBack(after: seq<U8>, before: seq<U8>, p: int, strd: int, ht: int, wd: int, pic: Picture, r: int, c: int)
    requires Painted(after, before, p, strd, ht, wd, pic) && 0 <= r < ht && 0 <= c < wd
    ensures Ref(after, p, strd).Sample(r, c) == pic.Value(r, c)
  {
  }

  // Pictures that agree on the block paint it alike.
  lemma PaintAlike(after: seq<int>, before: seq<int>, p: int, strd: int, ht: int, wd: int, a: Picture, b: Picture)
    requires Painted(after, before, p, strd, ht, wd, a)
    requires forall r, c :: 0 <= r < ht && 0 <= c < wd ==> a.Value(r, c) == b.Value(r, c)
    ensures Painted(after, before, p, strd, ht, wd, b)
  {
  }
}
