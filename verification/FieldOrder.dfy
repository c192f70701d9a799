// The orderings of H.264 section 8.2.4.2 as relations between two fields, and
// what it means for a reference list to obey one.
module FieldOrder {
  import opened Pictures

  datatype Order =
    | ByFrameNum(cur: int, max: int)
    | ByPocL0(cur: int)
    | ByPocL1(cur: int)
    | ByLongIdx

  // FrameNumWrap, equation 8-27 of H.264.
  function Wrap(frameNum: int, cur: int, max: int): int {
    if frameNum > cur then frameNum - max else frameNum
  }

  // The exchange conditions of the four sorting loops, as the code tests them.
  predicate MustSwap(o: Order, a: Field, b: Field) {
    match o
    case ByFrameNum(cur, max) =>
      Wrap(a.frameNum, cur, max) < Wrap(b.frameNum, cur, max)
    case ByPocL0(cur) =>
      !(|| (a.poc < cur && b.poc > cur)
        || (a.poc < cur && b.poc < cur && a.poc > b.poc)
        || (a.poc > cur && b.poc > cur && a.poc < b.poc))
    case ByPocL1(cur) =>
      !(|| (a.poc > cur && b.poc < cur)
        || (a.poc < cur && b.poc < cur && a.poc > b.poc)
        || (a.poc > cur && b.poc > cur && a.poc < b.poc))
    case ByLongIdx =>
      a.longIdx > b.longIdx
  }

  // The order the standard asks for: a may stand before b.
  predicate Precedes(o: Order, a: Field, b: Field) {
    match o
    case ByFrameNum(cur, max) =>
      Wrap(a.frameNum, cur, max) >= Wrap(b.frameNum, cur, max)
    case ByPocL0(cur) =>
      if a.poc < cur then b.poc <= a.poc || b.poc > cur else b.poc >= a.poc
    case ByPocL1(cur) =>
      if a.poc > cur then b.poc >= a.poc || b.poc < cur else b.poc <= a.poc
    case ByLongIdx =>
      a.longIdx <= b.longIdx
  }

  // The POC sorts assert that no field has the POC of the current picture.
  predicate Comparable(o: Order, a: Field) {
    match o
    case ByPocL0(cur) => a.poc != cur
    case ByPocL1(cur) => a.poc != cur
    case _ => true
  }

  ghost predicate AllComparable(o: Order, s: seq<Field>) {
    forall i :: 0 <= i < |s| ==> Comparable(o, s[i])
  }

  ghost predicate Sorted(o: Order, s: seq<Field>) {
    forall i, j :: 0 <= i < j < |s| ==> Precedes(o, s[i], s[j])
  }

  ghost predicate Permutation<T>(a: seq<T>, b: seq<T>) {
    multiset(a) == multiset(b)
  }

  function Swap<T>(s: seq<T>, i: nat, j: nat): (r: seq<T>)
    requires i < |s| && j < |s|
    ensures |r| == |s|
  {
    s[i := s[j]][j := s[i]]
  }

  lemma SwapPermutes<T>(s: seq<T>, i: nat, j: nat)
    requires i < |s| && j < |s|
    ensures Permutation(Swap(s, i, j), s)
  {
  }

  lemma PermutationMember<T>(a: seq<T>, b: seq<T>, i: nat)
    requires Permutation(a, b) && i < |a|
    ensures |a| == |b|
    ensures a[i] in b
  {
    assert a[i] in multiset(a);
    assert |multiset(a)| == |a| && |multiset(b)| == |b|;
  }

  lemma PermutationAll<T>(a: seq<T>, b: seq<T>)
    requires Permutation(a, b)
    ensures |a| == |b|
    ensures forall x :: x in a <==> x in b
  {
    assert |multiset(a)| == |a| && |multiset(b)| == |b|;
    forall x ensures x in a <==> x in b {
      assert x in a <==> x in multiset(a);
      assert x in b <==> x in multiset(b);
    }
  }

  lemma PermutationSym<T>(a: seq<T>, b: seq<T>)
    requires Permutation(a, b)
    ensures Permutation(b, a)
  {
  }

  lemma PermutationTrans<T>(a: seq<T>, b: seq<T>, c: seq<T>)
    requires Permutation(a, b) && Permutation(b, c)
    ensures Permutation(a, c)
  {
  }

  function Without<T>(s: seq<T>, i: nat): seq<T>
    requires i < |s|
  {
    s[..i] + s[i + 1..]
  }

  lemma WithoutOne<T>(s: seq<T>, i: nat)
    requires i < |s|
    ensures multiset(Without(s, i)) == multiset(s) - multiset{s[i]}
  {
    assert s == s[..i] + [s[i]] + s[i + 1..];
  }
}
