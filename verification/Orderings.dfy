// What the sorted lists look like, and that there is only one of each.
module Orderings {
  import opened Pictures
  import opened FieldOrder
  import opened Pairing
  import opened Counting
  import opened Marking

  // Different positions of a list go to different positions of a permutation.
  lemma TwoPositions<T>(a: seq<T>, b: seq<T>, i: nat, j: nat) returns (p: nat, q: nat)
    requires Permutation(a, b) && i < |a| && j < |a| && i != j
    ensures p < |b| && q < |b| && p != q && b[p] == a[i] && b[q] == a[j]
  {
    PermutationMember(a, b, i);
    p :| 0 <= p < |b| && b[p] == a[i];
    WithoutOne(a, i);
    WithoutOne(b, p);
    var j' := if j < i then j else j - 1;
    assert Without(a, i)[j'] == a[j];
    PermutationMember(Without(a, i), Without(b, p), j');
    var q' :| 0 <= q' < |Without(b, p)| && Without(b, p)[q'] == a[j];
    q := if q' < p then q' else q' + 1;
  }

  lemma ComplementaryPermute(k: Key, a: seq<Field>, b: seq<Field>)
    requires Permutation(b, a) && Complementary(k, a)
    ensures Complementary(k, b)
  {
    forall i | 0 <= i < |b| ensures IsParity(b[i].parity) {
      PermutationMember(b, a, i);
    }
    forall i, j | 0 <= i < j < |b| && KeyOf(k, b[i]) == KeyOf(k, b[j])
      ensures b[i].parity != b[j].parity
    {
      var p, q := TwoPositions(b, a, i, j);
    }
  }

  lemma FrameNumsPermute(a: seq<Field>, b: seq<Field>, max: int)
    requires Permutation(b, a) && FrameNumsIn(a, max)
    ensures FrameNumsIn(b, max)
  {
    forall i | 0 <= i < |b| ensures 0 <= b[i].frameNum < max {
      PermutationMember(b, a, i);
    }
  }

  ghost predicate StrictlyOrdered<T>(before: (T, T) -> bool, s: seq<T>) {
    forall i, j :: 0 <= i < j < |s| ==> before(s[i], s[j]) && !before(s[j], s[i])
  }

  lemma UniqueHead<T>(before: (T, T) -> bool, a: seq<T>, b: seq<T>)
    requires Permutation(a, b) && StrictlyOrdered(before, a) && StrictlyOrdered(before, b) && a != []
    ensures b != [] && a[0] == b[0]
  {
    PermutationMember(a, b, 0);
    PermutationMember(b, a, 0);
    var j :| 0 <= j < |b| && b[j] == a[0];
    var i :| 0 <= i < |a| && a[i] == b[0];
  }

  lemma OrderedTail<T>(before: (T, T) -> bool, s: seq<T>)
    requires StrictlyOrdered(before, s) && s != []
    ensures StrictlyOrdered(before, s[1..])
    ensures multiset(s[1..]) == multiset(s) - multiset{s[0]}
  {
    WithoutOne(s, 0);
    assert Without(s, 0) == s[1..];
  }

  // Two strictly ordered lists of the same elements are the same list.
  lemma {:induction false} UniqueOrder<T>(before: (T, T) -> bool, a: seq<T>, b: seq<T>)
    requires Permutation(a, b) && StrictlyOrdered(before, a) && StrictlyOrdered(before, b)
    ensures a == b
  {
    hide StrictlyOrdered;
    if a == [] {
      assert |multiset(b)| == |b|;
    } else {
      UniqueHead(before, a, b);
      OrderedTail(before, a);
      OrderedTail(before, b);
      UniqueOrder(before, a[1..], b[1..]);
      assert a == [a[0]] + a[1..] && b == [b[0]] + b[1..];
    }
  }

  // ---- POC order ----

  // Fields before the current picture, nearest first, then those after it,
  // nearest first (section 8.2.4.2.4, refFrameList0ShortTerm).
  ghost predicate PocL0At(s: seq<Field>, cur: int, k: nat) {
    && k <= |s|
    && (forall i :: 0 <= i < |s| ==> if i < k then s[i].poc < cur else s[i].poc > cur)
    && (forall i, j :: 0 <= i < j < k ==> s[i].poc >= s[j].poc)
    && (forall i, j :: k <= i < j < |s| ==> s[i].poc <= s[j].poc)
  }

  // The mirrored order of list 1: after the current picture, then before it.
  ghost predicate PocL1At(s: seq<Field>, cur: int, k: nat) {
    && k <= |s|
    && (forall i :: 0 <= i < |s| ==> if i < k then s[i].poc > cur else s[i].poc < cur)
    && (forall i, j :: 0 <= i < j < k ==> s[i].poc <= s[j].poc)
    && (forall i, j :: k <= i < j < |s| ==> s[i].poc >= s[j].poc)
  }

  lemma SortedPocL0(s: seq<Field>, cur: int) returns (k: nat)
    requires Sorted(ByPocL0(cur), s) && AllComparable(ByPocL0(cur), s)
    ensures PocL0At(s, cur, k)
  {
    k := 0;
    while k < |s| && s[k].poc < cur
      invariant k <= |s| && forall i :: 0 <= i < k ==> s[i].poc < cur
    {
      k := k + 1;
    }
    forall i | k <= i < |s| ensures s[i].poc > cur {
      assert Comparable(ByPocL0(cur), s[i]) && Comparable(ByPocL0(cur), s[k]);
      assert k < i ==> Precedes(ByPocL0(cur), s[k], s[i]);
    }
    forall i, j | 0 <= i < j < |s| ensures Precedes(ByPocL0(cur), s[i], s[j]) {
    }
  }

  lemma SortedPocL1(s: seq<Field>, cur: int) returns (k: nat)
    requires Sorted(ByPocL1(cur), s) && AllComparable(ByPocL1(cur), s)
    ensures PocL1At(s, cur, k)
  {
    k := 0;
    while k < |s| && s[k].poc > cur
      invariant k <= |s| && forall i :: 0 <= i < k ==> s[i].poc > cur
    {
      k := k + 1;
    }
    forall i | k <= i < |s| ensures s[i].poc < cur {
      assert Comparable(ByPocL1(cur), s[i]) && Comparable(ByPocL1(cur), s[k]);
      assert k < i ==> Precedes(ByPocL1(cur), s[k], s[i]);
    }
    forall i, j | 0 <= i < j < |s| ensures Precedes(ByPocL1(cur), s[i], s[j]) {
    }
  }

  ghost predicate DistinctPocs(s: seq<Field>) {
    forall i, j :: 0 <= i < j < |s| ==> s[i].poc != s[j].poc
  }

  lemma DistinctPocsPermute(a: seq<Field>, b: seq<Field>)
    requires Permutation(b, a) && DistinctPocs(a)
    ensures DistinctPocs(b)
  {
    forall i, j | 0 <= i < j < |b| ensures b[i].poc != b[j].poc {
      var p, q := TwoPositions(b, a, i, j);
    }
  }

  function Rotate<T>(s: seq<T>, k: nat): seq<T>
    requires k <= |s|
  {
    s[k..] + s[..k]
  }

  // List 1 is list 0 rotated at the current picture.
  lemma ListOneRotatesListZero(start: seq<Field>, cur: int, l0: seq<Field>, l1: seq<Field>) returns (k: nat)
    requires DistinctPocs(start) && AllComparable(ByPocL0(cur), start)
    requires Permutation(l0, start) && Sorted(ByPocL0(cur), l0)
    requires Permutation(l1, start) && Sorted(ByPocL1(cur), l1)
    ensures PocL0At(l0, cur, k) && l1 == Rotate(l0, k)
  {
    ComparablePermute(ByPocL0(cur), start, l0);
    ComparablePermute(ByPocL0(cur), start, l1);
    DistinctPocsPermute(start, l0);
    DistinctPocsPermute(start, l1);
    k := SortedPocL0(l0, cur);
    var k1 := SortedPocL1(l1, cur);
    var before := (a: Field, b: Field) => Precedes(ByPocL1(cur), a, b);
    RotatedIsOrdered(l0, cur, k);
    OrderedL1(l1, cur, k1);
    assert Permutation(Rotate(l0, k), l0) by {
      assert l0 == l0[..k] + l0[k..];
    }
    UniqueOrder(before, l1, Rotate(l0, k));
  }

  lemma ComparablePermute(o: Order, a: seq<Field>, b: seq<Field>)
    requires Permutation(b, a) && AllComparable(o, a)
    ensures AllComparable(o, b)
  {
    forall i | 0 <= i < |b| ensures Comparable(o, b[i]) {
      PermutationMember(b, a, i);
    }
  }

  lemma OrderedL1(s: seq<Field>, cur: int, k: nat)
    requires PocL1At(s, cur, k) && DistinctPocs(s)
    ensures StrictlyOrdered((a: Field, b: Field) => Precedes(ByPocL1(cur), a, b), s)
  {
  }

  lemma RotatedIsOrdered(s: seq<Field>, cur: int, k: nat)
    requires PocL0At(s, cur, k) && DistinctPocs(s)
    ensures StrictlyOrdered((a: Field, b: Field) => Precedes(ByPocL1(cur), a, b), Rotate(s, k))
  {
    var r := Rotate(s, k);
    var n := |s| - k;
    assert forall i :: 0 <= i < |s| ==> r[i] == if i < n then s[i + k] else s[i - n];
    assert PocL1At(r, cur, n);
    assert DistinctPocs(r);
    OrderedL1(r, cur, n);
  }

  // ---- frame_num order ----

  // Section 8.2.4.2.2 for fields: FrameNumWrap non-increasing, and of the two
  // fields of a frame the requested one first.
  ghost predicate FrameNumOrdered(s: seq<Field>, cur: int, max: int, first: int) {
    Sorted(ByFrameNum(cur, max), s) && PairsInOrder(FrameNumKey, first, s)
  }

  // The pass that puts pairs in order does not disturb the frame_num order.
  lemma PairedFrameNumOrder(s: seq<Field>, cur: int, max: int, first: int)
    requires Sorted(ByFrameNum(cur, max), s) && Complementary(FrameNumKey, s) && IsParity(first)
    ensures FrameNumOrdered(PairPass(FrameNumKey, first, s, 0), cur, max, first)
  {
    PairedFrameNumSorted(s, cur, max, first);
    PairPassOrders(FrameNumKey, first, s);
  }

  lemma PairedFrameNumSorted(s: seq<Field>, cur: int, max: int, first: int)
    requires Sorted(ByFrameNum(cur, max), s)
    ensures Sorted(ByFrameNum(cur, max), PairPass(FrameNumKey, first, s, 0))
  {
    var r := PairPass(FrameNumKey, first, s, 0);
    PairPassKeepsKeys(FrameNumKey, first, s, 0);
    forall i, j | 0 <= i < j < |r| ensures Precedes(ByFrameNum(cur, max), r[i], r[j]) {
      assert Precedes(ByFrameNum(cur, max), s[i], s[j]);
      assert KeyOf(FrameNumKey, r[i]) == KeyOf(FrameNumKey, s[i]);
      assert KeyOf(FrameNumKey, r[j]) == KeyOf(FrameNumKey, s[j]);
    }
  }

  lemma IdxAscends(s: seq<Field>)
    requires Sorted(ByLongIdx, s)
    ensures forall i, j :: 0 <= i < j < |s| ==> s[i].longIdx <= s[j].longIdx
  {
    forall i, j | 0 <= i < j < |s| ensures s[i].longIdx <= s[j].longIdx {
      assert Precedes(ByLongIdx, s[i], s[j]);
    }
  }

  ghost predicate LongIdxOrdered(s: seq<Field>, first: int) {
    Sorted(ByLongIdx, s) && PairsInOrder(LongIdxKey, first, s)
  }

  lemma PairedLongIdxSorted(s: seq<Field>, first: int)
    requires Sorted(ByLongIdx, s)
    ensures Sorted(ByLongIdx, PairPass(LongIdxKey, first, s, 0))
  {
    var r := PairPass(LongIdxKey, first, s, 0);
    PairPassKeepsKeys(LongIdxKey, first, s, 0);
    forall i, j | 0 <= i < j < |r| ensures Precedes(ByLongIdx, r[i], r[j]) {
      assert Precedes(ByLongIdx, s[i], s[j]);
      assert KeyOf(LongIdxKey, r[i]) == KeyOf(LongIdxKey, s[i]);
      assert KeyOf(LongIdxKey, r[j]) == KeyOf(LongIdxKey, s[j]);
    }
  }

  predicate FrameNumBefore(cur: int, max: int, first: int, a: Field, b: Field) {
    || Wrap(a.frameNum, cur, max) > Wrap(b.frameNum, cur, max)
    || (Wrap(a.frameNum, cur, max) == Wrap(b.frameNum, cur, max) && a.parity == first)
  }

  lemma FrameNumOrderedStrict(s: seq<Field>, cur: int, max: int, first: int)
    requires FrameNumOrdered(s, cur, max, first) && Complementary(FrameNumKey, s) && FrameNumsIn(s, max)
    requires IsParity(first)
    ensures StrictlyOrdered((a: Field, b: Field) => FrameNumBefore(cur, max, first, a, b), s)
  {
    forall i, j | 0 <= i < j < |s|
      ensures FrameNumBefore(cur, max, first, s[i], s[j]) && !FrameNumBefore(cur, max, first, s[j], s[i])
    {
      assert Precedes(ByFrameNum(cur, max), s[i], s[j]);
      WrapInjective(s[i].frameNum, s[j].frameNum, cur, max);
      if s[i].frameNum == s[j].frameNum {
        OnlyTwo(s, cur, max, i, j);
        assert KeyOf(FrameNumKey, s[i]) == KeyOf(FrameNumKey, s[i + 1]);
      }
    }
  }

  // Fields of one frame stand next to each other in frame_num order.
  lemma OnlyTwo(s: seq<Field>, cur: int, max: int, i: nat, j: nat)
    requires Sorted(ByFrameNum(cur, max), s) && Complementary(FrameNumKey, s) && FrameNumsIn(s, max)
    requires i < j < |s| && s[i].frameNum == s[j].frameNum
    ensures j == i + 1
  {
    if i + 1 < j {
      assert Precedes(ByFrameNum(cur, max), s[i], s[i + 1]);
      assert Precedes(ByFrameNum(cur, max), s[i + 1], s[j]);
      WrapInjective(s[i].frameNum, s[i + 1].frameNum, cur, max);
    }
  }

  // The frame_num order of a set of fields is unique.
  lemma FrameNumOrderUnique(a: seq<Field>, b: seq<Field>, cur: int, max: int, first: int)
    requires Permutation(a, b) && Complementary(FrameNumKey, b) && FrameNumsIn(b, max) && IsParity(first)
    requires FrameNumOrdered(a, cur, max, first) && FrameNumOrdered(b, cur, max, first)
    ensures a == b
  {
    ComplementaryPermute(FrameNumKey, b, a);
    FrameNumsPermute(b, a, max);
    FrameNumOrderedStrict(a, cur, max, first);
    FrameNumOrderedStrict(b, cur, max, first);
    UniqueOrder((x: Field, y: Field) => FrameNumBefore(cur, max, first, x, y), a, b);
  }

  // ---- sliding window ----

  // Nothing on the list has a smaller FrameNumWrap.
  ghost predicate Oldest(s: seq<Field>, f: Field, cur: int, max: int) {
    forall i :: 0 <= i < |s| ==> Wrap(f.frameNum, cur, max) <= Wrap(s[i].frameNum, cur, max)
  }

  // What is cut off the end of a list in frame_num order is the oldest frame.
  lemma OldestAtEnd(s: seq<Field>, cur: int, max: int, i: nat)
    requires Sorted(ByFrameNum(cur, max), s) && Complementary(FrameNumKey, s) && FrameNumsIn(s, max)
    requires i < |s|
    ensures i >= KeepLen(s) <==> Oldest(s, s[i], cur, max)
  {
    var n := |s|;
    if s[i].frameNum == s[n - 1].frameNum {
      if i < n - 1 {
        OnlyTwo(s, cur, max, i, n - 1);
      }
      forall j | 0 <= j < n ensures Wrap(s[i].frameNum, cur, max) <= Wrap(s[j].frameNum, cur, max) {
        assert j < n - 1 ==> Precedes(ByFrameNum(cur, max), s[j], s[n - 1]);
      }
    } else {
      assert Precedes(ByFrameNum(cur, max), s[i], s[n - 1]);
      WrapInjective(s[i].frameNum, s[n - 1].frameNum, cur, max);
      assert !Oldest(s, s[i], cur, max);
    }
  }

  lemma OldestIsOneFrame(s: seq<Field>, cur: int, max: int)
    requires Sorted(ByFrameNum(cur, max), s) && Complementary(FrameNumKey, s) && FrameNumsIn(s, max)
    requires s != []
    ensures |Frames(FrameNumKey, s[..KeepLen(s)])| + 1 == |Frames(FrameNumKey, s)|
  {
    var n, m := |s|, KeepLen(s);
    var f, g := Keys(FrameNumKey, s), Keys(FrameNumKey, s[..m]);
    assert g == f[..m];
    assert f[n - 1] !in g by {
      forall i | 0 <= i < m ensures g[i] != f[n - 1] {
        OldestAtEnd(s, cur, max, i);
        OldestAtEnd(s, cur, max, n - 1);
      }
    }
    assert forall i :: m <= i < n ==> f[i] == f[n - 1];
    assert Values(f) == Values(g) + {f[n - 1]} by {
      forall x | x in Values(f) ensures x in Values(g) + {f[n - 1]} {
        var i :| 0 <= i < n && f[i] == x;
        assert i < m ==> g[i] == x;
      }
      forall x | x in Values(g) + {f[n - 1]} ensures x in Values(f) {
      }
    }
  }

  // r holds exactly the fields of start that are not the oldest.
  ghost predicate NewerOf(start: seq<Field>, r: seq<Field>, cur: int, max: int) {
    && (forall i :: 0 <= i < |r| ==> r[i] in start && !Oldest(start, r[i], cur, max))
    && (forall i :: 0 <= i < |start| && !Oldest(start, start[i], cur, max) ==> start[i] in r)
  }

  // s is start in frame_num order; cutting its end takes exactly the oldest
  // fields off start, and they are one frame.
  lemma SlidingWindowFacts(start: seq<Field>, s: seq<Field>, cur: int, max: int)
    requires Permutation(s, start) && Sorted(ByFrameNum(cur, max), s)
    requires Complementary(FrameNumKey, start) && FrameNumsIn(start, max)
    ensures forall i :: 0 <= i < |s| ==> (i >= KeepLen(s) <==> Oldest(start, s[i], cur, max))
    ensures NewerOf(start, s[..KeepLen(s)], cur, max)
    ensures |Frames(FrameNumKey, s[..KeepLen(s)])| == |Frames(FrameNumKey, start)| - if start == [] then 0 else 1
  {
    hide Sorted, Complementary, FrameNumsIn, Frames;
    ComplementaryPermute(FrameNumKey, start, s);
    FrameNumsPermute(start, s, max);
    PermutationAll(s, start);
    forall i | 0 <= i < |s|
      ensures i >= KeepLen(s) <==> Oldest(start, s[i], cur, max)
    {
      OldestAtEnd(s, cur, max, i);
      OldestPermute(s, start, s[i], cur, max);
    }
    FramesPermute(FrameNumKey, s, start);
    if s != [] {
      OldestIsOneFrame(s, cur, max);
    }
    forall i | 0 <= i < |start| && !Oldest(start, start[i], cur, max)
      ensures start[i] in s[..KeepLen(s)]
    {
      PermutationMember(start, s, i);
      var k :| 0 <= k < |s| && s[k] == start[i];
      assert s[..KeepLen(s)][k] == start[i];
    }
  }

  // ---- ages ----

  // A multiple of max that is nearer to 0 than max is 0.
  lemma Multiple(d: int, max: int)
    requires -max < d * max < max
    ensures d == 0
  {
  }

  lemma Remainder(x: int, q: int, r: int, max: int)
    requires 0 <= r < max && x == q * max + r
    ensures x % max == r
  {
    assert (x / max - q) * max == r - x % max;
    Multiple(x / max - q, max);
  }

  // In the order of FrameNumWrap a field stands before those coded earlier: frame_num
  // counts frames modulo max, so a field is as old as cur - frame_num modulo max.
  lemma WrapIsAge(a: int, b: int, cur: int, max: int)
    requires 0 <= a < max && 0 <= b < max && 0 <= cur < max
    ensures Wrap(a, cur, max) >= Wrap(b, cur, max) <==> (cur - a) % max <= (cur - b) % max
  {
    Remainder(cur - a, if a <= cur then 0 else -1, if a <= cur then cur - a else cur - a + max, max);
    Remainder(cur - b, if b <= cur then 0 else -1, if b <= cur then cur - b else cur - b + max, max);
  }

  ghost predicate NewestFirst(s: seq<Field>, cur: int, max: int)
    requires max > 0
  {
    forall i, j :: 0 <= i < j < |s| ==> (cur - s[i].frameNum) % max <= (cur - s[j].frameNum) % max
  }

  // No field of the list is older.
  ghost predicate Eldest(s: seq<Field>, f: Field, cur: int, max: int)
    requires max > 0
  {
    forall i :: 0 <= i < |s| ==> (cur - s[i].frameNum) % max <= (cur - f.frameNum) % max
  }

  lemma SortedByAge(s: seq<Field>, cur: int, max: int)
    requires FrameNumsIn(s, max) && 0 <= cur < max
    ensures Sorted(ByFrameNum(cur, max), s) <==> NewestFirst(s, cur, max)
  {
    forall i, j | 0 <= i < j < |s|
      ensures Precedes(ByFrameNum(cur, max), s[i], s[j])
              <==> (cur - s[i].frameNum) % max <= (cur - s[j].frameNum) % max
    {
      WrapIsAge(s[i].frameNum, s[j].frameNum, cur, max);
    }
  }

  lemma OldestIsEldest(s: seq<Field>, f: Field, cur: int, max: int)
    requires FrameNumsIn(s, max) && 0 <= f.frameNum < max && 0 <= cur < max
    ensures Oldest(s, f, cur, max) <==> Eldest(s, f, cur, max)
  {
    forall i | 0 <= i < |s|
      ensures Wrap(f.frameNum, cur, max) <= Wrap(s[i].frameNum, cur, max)
              <==> (cur - s[i].frameNum) % max <= (cur - f.frameNum) % max
    {
      WrapIsAge(s[i].frameNum, f.frameNum, cur, max);
    }
  }

  lemma OldestPermute(a: seq<Field>, b: seq<Field>, f: Field, cur: int, max: int)
    requires Permutation(a, b)
    ensures Oldest(a, f, cur, max) <==> Oldest(b, f, cur, max)
  {
    PermutationAll(a, b);
    if Oldest(a, f, cur, max) {
      forall i | 0 <= i < |b| ensures Wrap(f.frameNum, cur, max) <= Wrap(b[i].frameNum, cur, max) {
        PermutationMember(b, a, i);
      }
    }
    if Oldest(b, f, cur, max) {
      forall i | 0 <= i < |a| ensures Wrap(f.frameNum, cur, max) <= Wrap(a[i].frameNum, cur, max) {
        PermutationMember(a, b, i);
      }
    }
  }
}
