// The pass that ends every sort: adjacent fields of one frame are put in the
// order the caller asks for.
module Pairing {
  import opened Pictures
  import opened FieldOrder

  // What makes two fields one frame: frame_num on the short-term list, the
  // long-term frame index on the long-term list.
  datatype Key = FrameNumKey | LongIdxKey

  function KeyOf(k: Key, f: Field): int {
    match k
    case FrameNumKey => f.frameNum
    case LongIdxKey => f.longIdx
  }

  predicate MustPair(k: Key, first: int, a: Field, b: Field) {
    KeyOf(k, a) == KeyOf(k, b) && a.parity != first
  }

  predicate IsParity(p: int) {
    p == TOP_FIELD || p == BOTTOM_FIELD
  }

  ghost predicate AllParities(s: seq<Field>) {
    forall i :: 0 <= i < |s| ==> IsParity(s[i].parity)
  }

  // At most one field of each parity per frame; this is what the code asserts
  // of adjacent fields.
  ghost predicate OnePerParity(k: Key, s: seq<Field>) {
    forall i, j :: 0 <= i < j < |s| && KeyOf(k, s[i]) == KeyOf(k, s[j]) ==> s[i].parity != s[j].parity
  }

  ghost predicate Complementary(k: Key, s: seq<Field>) {
    AllParities(s) && OnePerParity(k, s)
  }

  // The field the pass leaves at position i when it starts at position lo.
  function PairedAt(k: Key, first: int, s: seq<Field>, lo: int, i: int): Field
    requires 0 <= i < |s|
  {
    if i + 1 < |s| && MustPair(k, first, s[i], s[i + 1]) then s[i + 1]
    else if i > lo && i > 0 && MustPair(k, first, s[i - 1], s[i]) then s[i - 1]
    else s[i]
  }

  // One step of the pass.
  function PairStep(k: Key, first: int, s: seq<Field>, i: nat): (r: seq<Field>)
    requires i + 1 < |s|
    ensures |r| == |s|
  {
    if MustPair(k, first, s[i], s[i + 1]) then Swap(s, i, i + 1) else s
  }

  function PairPass(k: Key, first: int, s: seq<Field>, i: nat): (r: seq<Field>)
    ensures |r| == |s|
    decreases |s| - i
  {
    if i + 1 >= |s| then s else PairPass(k, first, PairStep(k, first, s, i), i + 1)
  }

  lemma PairPassUnfold(k: Key, first: int, s: seq<Field>, i: nat)
    ensures PairPass(k, first, s, i)
            == if i + 1 >= |s| then s else PairPass(k, first, PairStep(k, first, s, i), i + 1)
  {
  }

  lemma {:induction false} PairPassPermutes(k: Key, first: int, s: seq<Field>, i: nat)
    ensures Permutation(PairPass(k, first, s, i), s)
    decreases |s| - i
  {
    if i + 1 < |s| {
      SwapPermutes(s, i, i + 1);
      PairPassPermutes(k, first, PairStep(k, first, s, i), i + 1);
    }
  }

  // Which frame stands at each position does not change.
  lemma {:induction false} PairPassKeepsKeys(k: Key, first: int, s: seq<Field>, i: nat)
    ensures forall a :: 0 <= a < |s| ==> KeyOf(k, PairPass(k, first, s, i)[a]) == KeyOf(k, s[a])
    decreases |s| - i
  {
    if i + 1 < |s| {
      PairPassKeepsKeys(k, first, PairStep(k, first, s, i), i + 1);
    }
  }

  lemma PairStepComplementary(k: Key, first: int, s: seq<Field>, i: nat)
    requires i + 1 < |s| && Complementary(k, s)
    ensures Complementary(k, PairStep(k, first, s, i))
  {
  }

  lemma PairStepPointwise(k: Key, first: int, s: seq<Field>, lo: nat, i: nat)
    requires lo + 1 < |s| && i < |s| && Complementary(k, s)
    ensures var t := PairStep(k, first, s, lo);
            (if i < lo then s[i] else PairedAt(k, first, s, lo, i))
            == (if i < lo + 1 then t[i] else PairedAt(k, first, t, lo + 1, i))
  {
  }

  lemma {:induction false} PairPassPointwise(k: Key, first: int, s: seq<Field>, lo: nat, i: nat)
    requires Complementary(k, s) && i < |s|
    ensures PairPass(k, first, s, lo)[i] == if i < lo then s[i] else PairedAt(k, first, s, lo, i)
    decreases |s| - lo
  {
    if lo + 1 < |s| {
      PairStepComplementary(k, first, s, lo);
      PairPassPointwise(k, first, PairStep(k, first, s, lo), lo + 1, i);
      PairStepPointwise(k, first, s, lo, i);
    }
  }

  ghost predicate PairsInOrder(k: Key, first: int, s: seq<Field>) {
    forall i :: 0 <= i && i + 1 < |s| && KeyOf(k, s[i]) == KeyOf(k, s[i + 1]) ==> s[i].parity == first
  }

  lemma PairPassOrders(k: Key, first: int, s: seq<Field>)
    requires Complementary(k, s) && IsParity(first)
    ensures PairsInOrder(k, first, PairPass(k, first, s, 0))
  {
    PairPassKeepsKeys(k, first, s, 0);
    var r := PairPass(k, first, s, 0);
    forall i | 0 <= i && i + 1 < |s| && KeyOf(k, r[i]) == KeyOf(k, r[i + 1])
      ensures r[i].parity == first
    {
      PairPassPointwise(k, first, s, 0, i);
    }
  }

  // ---- the pass on any list ----

  // Fields lo to hi - 1 are all the neighbouring fields of one frame.
  ghost predicate FrameAt(k: Key, s: seq<Field>, lo: nat, hi: nat) {
    && lo < hi <= |s|
    && (forall i :: lo <= i < hi ==> KeyOf(k, s[i]) == KeyOf(k, s[lo]))
    && (hi < |s| ==> KeyOf(k, s[hi]) != KeyOf(k, s[hi - 1]))
  }

  lemma {:induction false} PairPassLeaves(k: Key, first: int, s: seq<Field>, j: nat)
    ensures forall i :: 0 <= i < j && i < |s| ==> PairPass(k, first, s, j)[i] == s[i]
    decreases |s| - j
  {
    if j + 1 < |s| {
      PairPassLeaves(k, first, PairStep(k, first, s, j), j + 1);
    }
  }

  // A field of the other parity is carried to the end of its frame.
  lemma {:induction false} PairPassCarries(k: Key, first: int, s: seq<Field>, j: nat, hi: nat)
    requires FrameAt(k, s, j, hi) && s[j].parity != first
    ensures forall i :: j <= i < hi ==> PairPass(k, first, s, j)[i] == if i < hi - 1 then s[i + 1] else s[j]
    decreases hi - j
  {
    if j + 1 < |s| {
      var t := PairStep(k, first, s, j);
      PairPassLeaves(k, first, t, j + 1);
      if j + 1 < hi {
        PairPassCarries(k, first, t, j + 1, hi);
      }
    }
  }

  lemma {:induction false} PairPassInFrame(k: Key, first: int, s: seq<Field>, j: nat, q: nat, hi: nat)
    requires FrameAt(k, s, j, hi) && j <= q <= hi
    requires forall i :: j <= i < q ==> s[i].parity == first
    requires q < hi ==> s[q].parity != first
    ensures forall i {:trigger PairPass(k, first, s, j)[i]} :: j <= i < hi ==>
              PairPass(k, first, s, j)[i] == if i < q then s[i] else if i < hi - 1 then s[i + 1] else s[q]
    decreases hi - j
  {
    if j == q {
      PairPassCarries(k, first, s, j, hi);
    } else if j + 1 < |s| {
      PairPassLeaves(k, first, s, j + 1);
      if j + 1 < hi {
        PairPassInFrame(k, first, s, j + 1, q, hi);
      }
    }
  }

  lemma {:induction false} PairPassFromStart(k: Key, first: int, s: seq<Field>, j: nat, lo: nat, q: nat, hi: nat)
    requires FrameAt(k, s, lo, hi) && j <= lo <= q <= hi
    requires lo > 0 ==> KeyOf(k, s[lo - 1]) != KeyOf(k, s[lo])
    requires forall i :: lo <= i < q ==> s[i].parity == first
    requires q < hi ==> s[q].parity != first
    ensures forall i {:trigger PairPass(k, first, s, j)[i]} :: lo <= i < hi ==>
              PairPass(k, first, s, j)[i] == if i < q then s[i] else if i < hi - 1 then s[i + 1] else s[q]
    decreases lo - j
  {
    if j == lo {
      PairPassInFrame(k, first, s, lo, q, hi);
    } else {
      PairPassFromStart(k, first, PairStep(k, first, s, j), j + 1, lo, q, hi);
    }
  }

  // On every list, assertion or not: of the neighbouring fields of one frame the first
  // one of the other parity, at q, goes behind the rest, which keep their order.
  lemma PairPassExact(k: Key, first: int, s: seq<Field>, lo: nat, q: nat, hi: nat)
    requires lo < hi <= |s| && lo <= q <= hi
    requires forall i :: lo <= i < hi ==> KeyOf(k, s[i]) == KeyOf(k, s[lo])
    requires lo > 0 ==> KeyOf(k, s[lo - 1]) != KeyOf(k, s[lo])
    requires hi < |s| ==> KeyOf(k, s[hi]) != KeyOf(k, s[lo])
    requires (forall i :: lo <= i < q ==> s[i].parity == first) && (q < hi ==> s[q].parity != first)
    ensures forall i {:trigger PairPass(k, first, s, 0)[i]} :: lo <= i < hi ==>
              PairPass(k, first, s, 0)[i] == if i < q then s[i] else if i < hi - 1 then s[i + 1] else s[q]
  {
    PairPassFromStart(k, first, s, 0, lo, q, hi);
  }
}
