// Sample types and rectangles of samples in flat buffers.
module Pixels {

  type U8 = x: int | 0 <= x < 256
  type I8 = x: int | -128 <= x < 128
  type I16 = x: int | -0x8000 <= x < 0x8000
  type I32 = x: int | -0x8000_0000 <= x < 0x8000_0000

  function Clip(x: int): U8 {
    if x < 0 then 0 else if x > 255 then 255 else x
  }

  // The index of row r, column c from a base index and a stride.
  function At(p: int, strd: int, r: int, c: int): int {
    p + r * strd + c
  }

  // Every sample of the rectangle lies in a buffer of this length.
  ghost predicate Covers(length: nat, p: int, strd: int, r0: int, r1: int, c0: int, c1: int) {
    forall r, c {:trigger At(p, strd, r, c)} :: r0 <= r < r1 && c0 <= c < c1 ==> 0 <= At(p, strd, r, c) < length
  }

  lemma Apart(d: int, strd: int)
    requires d >= 1 && strd >= 0
    ensures d * strd >= strd
  {
  }

  // Rows that do not overlap give every sample its own index.
  lemma OnePlace(p: int, strd: int, wd: int, r: int, c: int, r': int, c': int)
    requires strd >= wd && 0 <= c < wd && 0 <= c' < wd && At(p, strd, r, c) == At(p, strd, r', c')
    ensures r == r' && c == c'
  {
    assert (r - r') * strd == c' - c;
    assert (r' - r) * strd == c - c';
    if r > r' {
      Apart(r - r', strd);
    } else if r < r' {
      Apart(r' - r, strd);
    }
  }
}
