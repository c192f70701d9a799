// The frame count of the long-term list. The list is sorted by index, but the walk
// compares frame_nums, so it counts changes of frame_num in index order.
module LongTermCount {
  import opened Pictures
  import opened FieldOrder
  import opened ExchangeSort
  import opened Pairing
  import opened Counting
  import opened Orderings

  // The list the long-term sort leaves.
  function LongSort(s: seq<Field>, first: int): (r: seq<Field>)
    ensures |r| == |s|
  {
    PairPass(LongIdxKey, first, Exchanged(ByLongIdx, s), 0)
  }

  // What the long-term half of the frame count returns.
  function LongCount(s: seq<Field>): nat {
    Runs(Keys(FrameNumKey, LongSort(s, TOP_FIELD)))
  }

  lemma LongSortFacts(s: seq<Field>, first: int)
    ensures Permutation(LongSort(s, first), s) && Sorted(ByLongIdx, LongSort(s, first))
    ensures Complementary(LongIdxKey, s) && IsParity(first) ==> LongIdxOrdered(LongSort(s, first), first)
  {
    var mid := Exchanged(ByLongIdx, s);
    ExchangedSorts(ByLongIdx, s);
    PairPassPermutes(LongIdxKey, first, mid, 0);
    PairedLongIdxSorted(mid, first);
    if Complementary(LongIdxKey, s) && IsParity(first) {
      ComplementaryPermute(LongIdxKey, s, mid);
      PairPassOrders(LongIdxKey, first, mid);
    }
  }

  // ---- counted too often, or not at all ----

  // A frame whose fields have different frame_nums is split in two.
  predicate SplitAt(s: seq<Field>, i: int) {
    0 <= i && i + 1 < |s| && s[i].longIdx == s[i + 1].longIdx && s[i].frameNum != s[i + 1].frameNum
  }

  // Two neighbouring frames with one frame_num are merged.
  predicate MergeAt(s: seq<Field>, i: int) {
    0 <= i && i + 1 < |s| && s[i].longIdx != s[i + 1].longIdx && s[i].frameNum == s[i + 1].frameNum
  }

  function Splits(s: seq<Field>): set<int> {
    set i | 0 <= i < |s| && SplitAt(s, i)
  }

  function Merges(s: seq<Field>): set<int> {
    set i | 0 <= i < |s| && MergeAt(s, i)
  }

  lemma SplitsNext(s: seq<Field>, n: nat)
    requires n + 1 == |s|
    ensures Splits(s) == Splits(s[..n]) + if SplitAt(s, n - 1) then {n - 1} else {}
    ensures Merges(s) == Merges(s[..n]) + if MergeAt(s, n - 1) then {n - 1} else {}
    ensures n - 1 !in Splits(s[..n]) && n - 1 !in Merges(s[..n])
  {
    forall i ensures SplitAt(s, i) <==> SplitAt(s[..n], i) || (i == n - 1 && SplitAt(s, i)) {
    }
    forall i ensures MergeAt(s, i) <==> MergeAt(s[..n], i) || (i == n - 1 && MergeAt(s, i)) {
    }
  }

  lemma {:induction false} RunsDiffer(s: seq<Field>)
    ensures Runs(Keys(FrameNumKey, s)) + |Merges(s)| == Runs(Keys(LongIdxKey, s)) + |Splits(s)|
  {
    hide Splits, Merges, Keys;
    if |s| < 2 {
      NoSteps(s);
    } else {
      var n := |s| - 1;
      RunsDiffer(s[..n]);
      SplitsNext(s, n);
      assert Keys(FrameNumKey, s)[..n] == Keys(FrameNumKey, s[..n]);
      assert Keys(LongIdxKey, s)[..n] == Keys(LongIdxKey, s[..n]);
    }
  }

  lemma NoSteps(s: seq<Field>)
    requires |s| < 2
    ensures Splits(s) == {} && Merges(s) == {}
  {
  }

  // For every list: the count exceeds the number of frames by the frames it splits
  // and falls short by those it merges, so it is right exactly when these balance.
  lemma LongCountExact(s: seq<Field>)
    ensures var sorted := LongSort(s, TOP_FIELD);
            && LongCount(s) + |Merges(sorted)| == |Frames(LongIdxKey, s)| + |Splits(sorted)|
            && (LongCount(s) == |Frames(LongIdxKey, s)| <==> |Splits(sorted)| == |Merges(sorted)|)
  {
    hide Splits, Merges, LongSort, Runs, Frames;
    var sorted := LongSort(s, TOP_FIELD);
    LongSortFacts(s, TOP_FIELD);
    CountByLongIdx(sorted);
    FramesPermute(LongIdxKey, sorted, s);
    RunsDiffer(sorted);
  }

  // ---- frames with one frame_num ----

  // The fields with one long-term frame index are fields of one frame.
  ghost predicate IdxFixesFrameNum(s: seq<Field>) {
    forall i, j :: 0 <= i < |s| && 0 <= j < |s| && s[i].longIdx == s[j].longIdx ==> s[i].frameNum == s[j].frameNum
  }

  ghost predicate IdxBetween(s: seq<Field>, lo: int, hi: int) {
    exists k :: 0 <= k < |s| && lo < s[k].longIdx < hi
  }

  // Two long-term frames with one frame_num always have another between them
  // in index order.
  ghost predicate NeighboursDiffer(s: seq<Field>) {
    forall i, j :: 0 <= i < |s| && 0 <= j < |s| && s[i].longIdx < s[j].longIdx && s[i].frameNum == s[j].frameNum
                   ==> IdxBetween(s, s[i].longIdx, s[j].longIdx)
  }

  lemma IdxFixesPermute(a: seq<Field>, b: seq<Field>)
    requires Permutation(a, b) && IdxFixesFrameNum(a)
    ensures IdxFixesFrameNum(b)
  {
    forall i, j | 0 <= i < |b| && 0 <= j < |b| && b[i].longIdx == b[j].longIdx
      ensures b[i].frameNum == b[j].frameNum
    {
      PermutationMember(b, a, i);
      PermutationMember(b, a, j);
    }
  }

  lemma BetweenPermute(a: seq<Field>, b: seq<Field>, lo: int, hi: int)
    requires Permutation(a, b) && IdxBetween(a, lo, hi)
    ensures IdxBetween(b, lo, hi)
  {
    var k :| 0 <= k < |a| && lo < a[k].longIdx < hi;
    PermutationMember(a, b, k);
    var k' :| 0 <= k' < |b| && b[k'] == a[k];
  }

  lemma NeighboursPermute(a: seq<Field>, b: seq<Field>)
    requires Permutation(a, b) && NeighboursDiffer(a)
    ensures NeighboursDiffer(b)
  {
    hide IdxBetween;
    forall i, j | 0 <= i < |b| && 0 <= j < |b| && b[i].longIdx < b[j].longIdx && b[i].frameNum == b[j].frameNum
      ensures IdxBetween(b, b[i].longIdx, b[j].longIdx)
    {
      PermutationMember(b, a, i);
      PermutationMember(b, a, j);
      var i' :| 0 <= i' < |a| && a[i'] == b[i];
      var j' :| 0 <= j' < |a| && a[j'] == b[j];
      BetweenPermute(a, b, b[i].longIdx, b[j].longIdx);
    }
  }

  // Then no frame is counted twice, and all are counted exactly when neighbours
  // differ.
  lemma SortedCountExact(s: seq<Field>)
    requires Sorted(ByLongIdx, s) && IdxFixesFrameNum(s)
    ensures Runs(Keys(FrameNumKey, s)) <= |Frames(LongIdxKey, s)|
    ensures Runs(Keys(FrameNumKey, s)) == |Frames(LongIdxKey, s)| <==> NeighboursDiffer(s)
  {
    CountByLongIdx(s);
    var f, g := Keys(LongIdxKey, s), Keys(FrameNumKey, s);
    RunsCompare(f, g);
    if StepsDiffer(f, g) {
      forall i, j | 0 <= i < |s| && 0 <= j < |s| && s[i].longIdx < s[j].longIdx && s[i].frameNum == s[j].frameNum
        ensures IdxBetween(s, s[i].longIdx, s[j].longIdx)
      {
        NeighbourBetween(s, i, j);
      }
    } else {
      var i :| 0 <= i && i + 1 < |f| && f[i] != f[i + 1] && g[i] == g[i + 1];
      NothingBetween(s, i);
    }
  }

  lemma NothingBetween(s: seq<Field>, i: nat)
    requires Sorted(ByLongIdx, s) && i + 1 < |s|
    requires s[i].longIdx != s[i + 1].longIdx && s[i].frameNum == s[i + 1].frameNum
    ensures !NeighboursDiffer(s)
  {
    assert Precedes(ByLongIdx, s[i], s[i + 1]);
    forall k | 0 <= k < |s|
      ensures !(s[i].longIdx < s[k].longIdx < s[i + 1].longIdx)
    {
      assert k < i ==> Precedes(ByLongIdx, s[k], s[i]);
      assert i + 1 < k ==> Precedes(ByLongIdx, s[i + 1], s[k]);
    }
  }

  lemma NeighbourBetween(s: seq<Field>, i: nat, j: nat)
    requires Sorted(ByLongIdx, s) && IdxFixesFrameNum(s)
    requires i < |s| && j < |s| && s[i].longIdx < s[j].longIdx && s[i].frameNum == s[j].frameNum
    requires StepsDiffer(Keys(LongIdxKey, s), Keys(FrameNumKey, s))
    ensures IdxBetween(s, s[i].longIdx, s[j].longIdx)
  {
    assert i < j by {
      assert j < i ==> Precedes(ByLongIdx, s[j], s[i]);
    }
    var a := i;
    while s[a + 1].longIdx == s[i].longIdx
      invariant i <= a < j && s[a].longIdx == s[i].longIdx
      decreases j - a
    {
      a := a + 1;
    }
    assert Keys(LongIdxKey, s)[a] != Keys(LongIdxKey, s)[a + 1];
    assert s[a].frameNum == s[i].frameNum && s[a + 1].frameNum != s[a].frameNum;
    assert s[a + 1].longIdx != s[j].longIdx;
    assert Precedes(ByLongIdx, s[a], s[a + 1]);
    assert a + 1 < j ==> Precedes(ByLongIdx, s[a + 1], s[j]);
  }

  lemma FixedCountExact(s: seq<Field>)
    requires IdxFixesFrameNum(s)
    ensures LongCount(s) <= |Frames(LongIdxKey, s)|
    ensures LongCount(s) == |Frames(LongIdxKey, s)| <==> NeighboursDiffer(s)
  {
    hide IdxFixesFrameNum, NeighboursDiffer, Sorted, LongSort;
    var sorted := LongSort(s, TOP_FIELD);
    LongSortFacts(s, TOP_FIELD);
    PermutationSym(sorted, s);
    IdxFixesPermute(s, sorted);
    SortedCountExact(sorted);
    FramesPermute(LongIdxKey, sorted, s);
    if NeighboursDiffer(s) {
      NeighboursPermute(s, sorted);
    }
    if NeighboursDiffer(sorted) {
      NeighboursPermute(sorted, s);
    }
  }

  // ---- counting again ----

  // Lists in index order with one set of fields show one sequence of frames.
  lemma {:induction false} LongKeysUnique(a: seq<Field>, b: seq<Field>)
    requires Permutation(a, b) && Sorted(ByLongIdx, a) && Sorted(ByLongIdx, b) && IdxFixesFrameNum(a)
    ensures Keys(FrameNumKey, a) == Keys(FrameNumKey, b)
  {
    PermutationAll(a, b);
    if a != [] {
      PermutationMember(a, b, 0);
      PermutationMember(b, a, 0);
      var j :| 0 <= j < |b| && b[j] == a[0];
      var i :| 0 <= i < |a| && a[i] == b[0];
      assert i > 0 ==> Precedes(ByLongIdx, a[0], a[i]);
      assert j > 0 ==> Precedes(ByLongIdx, b[0], b[j]);
      LongKeysTail(a, b, j);
      LongKeysUnique(Without(a, 0), Without(b, j));
      HeadTail(Keys(FrameNumKey, a), Keys(FrameNumKey, b));
    }
  }

  lemma HeadTail(a: seq<int>, b: seq<int>)
    requires a != [] && b != [] && a[0] == b[0] && a[1..] == b[1..]
    ensures a == b
  {
    assert a == [a[0]] + a[1..] && b == [b[0]] + b[1..];
  }

  lemma SortedWithout(s: seq<Field>, j: nat)
    requires Sorted(ByLongIdx, s) && j < |s|
    ensures Sorted(ByLongIdx, Without(s, j))
  {
    var t := Without(s, j);
    assert forall i :: 0 <= i < |t| ==> t[i] == s[if i < j then i else i + 1];
  }

  lemma KeysWithout(s: seq<Field>, j: nat)
    requires j < |s| && forall k :: 0 <= k <= j ==> s[k].frameNum == s[0].frameNum
    ensures Keys(FrameNumKey, s)[1..] == Keys(FrameNumKey, Without(s, j))
  {
  }

  lemma LeadingIdx(s: seq<Field>, j: nat)
    requires Sorted(ByLongIdx, s) && IdxFixesFrameNum(s) && j < |s| && s[0].longIdx == s[j].longIdx
    ensures forall k :: 0 <= k <= j ==> s[k].frameNum == s[0].frameNum
  {
    forall k | 0 <= k <= j ensures s[k].frameNum == s[0].frameNum {
      assert 0 < k ==> Precedes(ByLongIdx, s[0], s[k]);
      assert k < j ==> Precedes(ByLongIdx, s[k], s[j]);
      assert s[k].longIdx == s[0].longIdx;
    }
  }

  // Taking a field with the least index out of a sorted list, wherever it
  // stands, leaves the frames of the tail.
  lemma LongKeysTail(a: seq<Field>, b: seq<Field>, j: nat)
    requires Permutation(a, b) && Sorted(ByLongIdx, a) && Sorted(ByLongIdx, b) && IdxFixesFrameNum(a)
    requires a != [] && j < |b| && b[j] == a[0] && b[0].longIdx == b[j].longIdx
    ensures Permutation(Without(a, 0), Without(b, j))
    ensures Sorted(ByLongIdx, Without(a, 0)) && Sorted(ByLongIdx, Without(b, j))
    ensures IdxFixesFrameNum(Without(a, 0))
    ensures Keys(FrameNumKey, a)[1..] == Keys(FrameNumKey, Without(a, 0))
    ensures Keys(FrameNumKey, b)[1..] == Keys(FrameNumKey, Without(b, j))
    ensures Keys(FrameNumKey, a)[0] == Keys(FrameNumKey, b)[0]
  {
    hide Sorted;
    WithoutOne(a, 0);
    WithoutOne(b, j);
    SortedWithout(a, 0);
    SortedWithout(b, j);
    IdxFixesPermute(a, b);
    LeadingIdx(b, j);
    KeysWithout(a, 0);
    KeysWithout(b, j);
  }

  predicate LongIdxBefore(first: int, a: Field, b: Field) {
    a.longIdx < b.longIdx || (a.longIdx == b.longIdx && a.parity == first)
  }

  lemma IdxStays(s: seq<Field>, i: nat, k: nat, j: nat)
    requires Sorted(ByLongIdx, s) && i <= k <= j < |s| && s[i].longIdx == s[j].longIdx
    ensures s[k].longIdx == s[i].longIdx
  {
    assert i < k ==> Precedes(ByLongIdx, s[i], s[k]);
    assert k < j ==> Precedes(ByLongIdx, s[k], s[j]);
  }

  // At most two fields have one index, and they are neighbours.
  lemma FrameIsPair(s: seq<Field>, i: nat, j: nat)
    requires Sorted(ByLongIdx, s) && Complementary(LongIdxKey, s)
    requires i < j < |s| && s[i].longIdx == s[j].longIdx
    ensures j == i + 1
  {
    if i + 1 < j {
      IdxStays(s, i, i + 1, j);
    }
  }

  lemma LongIdxOrderedStrict(s: seq<Field>, first: int)
    requires LongIdxOrdered(s, first) && Complementary(LongIdxKey, s)
    ensures StrictlyOrdered((a: Field, b: Field) => LongIdxBefore(first, a, b), s)
  {
    forall i, j | 0 <= i < j < |s|
      ensures LongIdxBefore(first, s[i], s[j]) && !LongIdxBefore(first, s[j], s[i])
    {
      assert Precedes(ByLongIdx, s[i], s[j]);
      if s[i].longIdx == s[j].longIdx {
        FrameIsPair(s, i, j);
        assert KeyOf(LongIdxKey, s[i]) == KeyOf(LongIdxKey, s[i + 1]);
      }
    }
  }

  // The long-term order of given fields is unique.
  lemma LongIdxOrderUnique(a: seq<Field>, b: seq<Field>, first: int)
    requires Permutation(a, b) && Complementary(LongIdxKey, b)
    requires LongIdxOrdered(a, first) && LongIdxOrdered(b, first)
    ensures a == b
  {
    ComplementaryPermute(LongIdxKey, b, a);
    LongIdxOrderedStrict(a, first);
    LongIdxOrderedStrict(b, first);
    UniqueOrder((x: Field, y: Field) => LongIdxBefore(first, x, y), a, b);
  }

  // With one field of each parity per index, or one frame_num per index, the count
  // does not depend on the order the fields are in.
  lemma LongCountOrderFree(a: seq<Field>, b: seq<Field>)
    requires Permutation(a, b) && (Complementary(LongIdxKey, a) || IdxFixesFrameNum(a))
    ensures LongCount(a) == LongCount(b)
  {
    hide LongSort, Complementary, IdxFixesFrameNum, Sorted, PairsInOrder;
    var s, t := LongSort(a, TOP_FIELD), LongSort(b, TOP_FIELD);
    LongSortFacts(a, TOP_FIELD);
    LongSortFacts(b, TOP_FIELD);
    PermutationTrans(s, a, b);
    PermutationSym(t, b);
    PermutationTrans(s, b, t);
    PermutationSym(s, a);
    if Complementary(LongIdxKey, a) {
      PermutationSym(a, b);
      ComplementaryPermute(LongIdxKey, a, b);
      ComplementaryPermute(LongIdxKey, b, t);
      LongIdxOrderUnique(s, t, TOP_FIELD);
    } else {
      IdxFixesPermute(a, s);
      LongKeysUnique(s, t);
    }
  }

  // So counting again, on the list the first count leaves, gives the same.
  lemma LongCountStable(s: seq<Field>)
    requires Complementary(LongIdxKey, s) || IdxFixesFrameNum(s)
    ensures LongCount(LongSort(s, TOP_FIELD)) == LongCount(s)
  {
    hide LongSort, Complementary, IdxFixesFrameNum;
    LongSortFacts(s, TOP_FIELD);
    PermutationSym(LongSort(s, TOP_FIELD), s);
    LongCountOrderFree(s, LongSort(s, TOP_FIELD));
  }

  // ---- the condition on the unsorted list ----

  // No field of the same frame comes after f, or before it, when top fields come
  // first.
  ghost predicate LastOfFrame(s: seq<Field>, f: Field) {
    f.parity == BOTTOM_FIELD || forall k :: 0 <= k < |s| && s[k].longIdx == f.longIdx ==> s[k] == f
  }

  ghost predicate FirstOfFrame(s: seq<Field>, f: Field) {
    f.parity == TOP_FIELD || forall k :: 0 <= k < |s| && s[k].longIdx == f.longIdx ==> s[k] == f
  }

  ghost predicate IsSplit(s: seq<Field>, f: Field) {
    exists j :: 0 <= j < |s| && s[j].longIdx == f.longIdx && s[j].frameNum != f.frameNum
  }

  ghost predicate Follows(s: seq<Field>, f: Field, g: Field) {
    FirstOfFrame(s, g) && f.longIdx < g.longIdx && !IdxBetween(s, f.longIdx, g.longIdx)
  }

  ghost predicate IsMerged(s: seq<Field>, f: Field) {
    LastOfFrame(s, f) && exists j :: 0 <= j < |s| && Follows(s, f, s[j]) && s[j].frameNum == f.frameNum
  }

  // The frames whose fields differ in frame_num.
  ghost function SplitFrames(s: seq<Field>): set<int> {
    set i | 0 <= i < |s| && IsSplit(s, s[i]) :: s[i].longIdx
  }

  // The frames whose last field has the frame_num of the first field of the frame
  // next in index order.
  ghost function MergedFrames(s: seq<Field>): set<int> {
    set i | 0 <= i < |s| && IsMerged(s, s[i]) :: s[i].longIdx
  }

  lemma FrameEndsPermute(a: seq<Field>, b: seq<Field>, f: Field)
    requires Permutation(a, b)
    ensures LastOfFrame(a, f) ==> LastOfFrame(b, f)
    ensures FirstOfFrame(a, f) ==> FirstOfFrame(b, f)
  {
    forall k | 0 <= k < |b| ensures b[k] in a {
      PermutationSym(a, b);
      PermutationMember(b, a, k);
    }
  }

  lemma SplitPermutes(a: seq<Field>, b: seq<Field>)
    requires Permutation(a, b)
    ensures SplitFrames(a) <= SplitFrames(b)
  {
    forall x | x in SplitFrames(a) ensures x in SplitFrames(b) {
      var i :| 0 <= i < |a| && IsSplit(a, a[i]) && x == a[i].longIdx;
      var j :| 0 <= j < |a| && a[j].longIdx == a[i].longIdx && a[j].frameNum != a[i].frameNum;
      PermutationMember(a, b, i);
      PermutationMember(a, b, j);
      var i' :| 0 <= i' < |b| && b[i'] == a[i];
      var j' :| 0 <= j' < |b| && b[j'] == a[j];
      assert IsSplit(b, b[i']);
    }
  }

  lemma MergedPermutes(a: seq<Field>, b: seq<Field>)
    requires Permutation(a, b)
    ensures MergedFrames(a) <= MergedFrames(b)
  {
    hide FirstOfFrame, LastOfFrame, IdxBetween;
    PermutationSym(a, b);
    forall x | x in MergedFrames(a) ensures x in MergedFrames(b) {
      var i :| 0 <= i < |a| && IsMerged(a, a[i]) && x == a[i].longIdx;
      var j :| 0 <= j < |a| && Follows(a, a[i], a[j]) && a[j].frameNum == a[i].frameNum;
      PermutationMember(a, b, i);
      PermutationMember(a, b, j);
      FrameEndsPermute(a, b, a[i]);
      FrameEndsPermute(a, b, a[j]);
      if IdxBetween(b, a[i].longIdx, a[j].longIdx) {
        BetweenPermute(b, a, a[i].longIdx, a[j].longIdx);
      }
      var i' :| 0 <= i' < |b| && b[i'] == a[i];
      var j' :| 0 <= j' < |b| && b[j'] == a[j];
      assert Follows(b, b[i'], b[j']);
      assert IsMerged(b, b[i']);
    }
  }

  // ---- positions of the sorted list and frames ----

  lemma SplitPosition(t: seq<Field>, x: int)
    requires LongIdxOrdered(t, TOP_FIELD) && Complementary(LongIdxKey, t)
    ensures x in SplitFrames(t) <==> exists i :: i in Splits(t) && t[i].longIdx == x
  {
    if x in SplitFrames(t) {
      var i :| 0 <= i < |t| && IsSplit(t, t[i]) && x == t[i].longIdx;
      var j :| 0 <= j < |t| && t[j].longIdx == t[i].longIdx && t[j].frameNum != t[i].frameNum;
      var p, q := if i < j then i else j, if i < j then j else i;
      FrameIsPair(t, p, q);
      assert SplitAt(t, p);
      assert p in Splits(t);
    }
    if exists i :: i in Splits(t) && t[i].longIdx == x {
      var i :| i in Splits(t) && t[i].longIdx == x;
      assert t[i + 1].longIdx == t[i].longIdx && t[i + 1].frameNum != t[i].frameNum;
      assert IsSplit(t, t[i]);
    }
  }

  lemma EndOfFrame(t: seq<Field>, i: nat)
    requires LongIdxOrdered(t, TOP_FIELD) && Complementary(LongIdxKey, t) && i < |t|
    ensures LastOfFrame(t, t[i]) <==> i + 1 == |t| || t[i + 1].longIdx != t[i].longIdx
  {
    if i + 1 < |t| && t[i + 1].longIdx == t[i].longIdx {
      assert KeyOf(LongIdxKey, t[i]) == KeyOf(LongIdxKey, t[i + 1]);
      assert t[i].parity == TOP_FIELD && t[i + 1].parity != TOP_FIELD;
      assert t[i + 1] != t[i];
    } else if t[i].parity != BOTTOM_FIELD {
      forall k | 0 <= k < |t| && t[k].longIdx == t[i].longIdx ensures t[k] == t[i] {
        SameFrame(t, i, k);
      }
    }
  }

  lemma StartOfFrame(t: seq<Field>, i: nat)
    requires LongIdxOrdered(t, TOP_FIELD) && Complementary(LongIdxKey, t) && i < |t|
    ensures FirstOfFrame(t, t[i]) <==> i == 0 || t[i - 1].longIdx != t[i].longIdx
  {
    if i > 0 && t[i - 1].longIdx == t[i].longIdx {
      assert KeyOf(LongIdxKey, t[i - 1]) == KeyOf(LongIdxKey, t[i - 1 + 1]);
      assert t[i - 1].parity == TOP_FIELD && t[i].parity != TOP_FIELD;
      assert t[i - 1] != t[i];
    } else if t[i].parity != TOP_FIELD {
      forall k | 0 <= k < |t| && t[k].longIdx == t[i].longIdx ensures t[k] == t[i] {
        SameFrame(t, i, k);
      }
    }
  }

  // Another field of the frame is the neighbour on the side its parity says.
  lemma SameFrame(t: seq<Field>, i: nat, k: nat)
    requires LongIdxOrdered(t, TOP_FIELD) && Complementary(LongIdxKey, t) && i < |t| && k < |t|
    requires t[k].longIdx == t[i].longIdx
    ensures k == i || (k == i + 1 && t[i].parity == TOP_FIELD) || (k + 1 == i && t[i].parity == BOTTOM_FIELD)
  {
    if i < k {
      FrameIsPair(t, i, k);
      assert KeyOf(LongIdxKey, t[i]) == KeyOf(LongIdxKey, t[i + 1]);
    } else if k < i {
      FrameIsPair(t, k, i);
      assert KeyOf(LongIdxKey, t[k]) == KeyOf(LongIdxKey, t[k + 1]);
    }
  }

  // Positions of one step: nothing lies between exactly when they are neighbours.
  lemma NextFrame(t: seq<Field>, p: nat, q: nat)
    requires LongIdxOrdered(t, TOP_FIELD) && Complementary(LongIdxKey, t) && p < |t| && q < |t|
    requires LastOfFrame(t, t[p])
    ensures Follows(t, t[p], t[q]) <==> q == p + 1
  {
    hide LastOfFrame, FirstOfFrame;
    EndOfFrame(t, p);
    StartOfFrame(t, q);
    if q == p + 1 {
      assert Precedes(ByLongIdx, t[p], t[q]);
      forall k | 0 <= k < |t| ensures !(t[p].longIdx < t[k].longIdx < t[q].longIdx) {
        assert k < p ==> Precedes(ByLongIdx, t[k], t[p]);
        assert q < k ==> Precedes(ByLongIdx, t[q], t[k]);
      }
    } else if Follows(t, t[p], t[q]) {
      assert q < p ==> Precedes(ByLongIdx, t[q], t[p]);
      NotNext(t, p, q);
    }
  }

  lemma NotNext(t: seq<Field>, p: nat, q: nat)
    requires Sorted(ByLongIdx, t) && p + 1 < q < |t|
    requires t[p].longIdx != t[p + 1].longIdx && t[q - 1].longIdx != t[q].longIdx
    ensures IdxBetween(t, t[p].longIdx, t[q].longIdx)
  {
    assert Precedes(ByLongIdx, t[p], t[p + 1]) && Precedes(ByLongIdx, t[q - 1], t[q]);
    assert p + 1 < q - 1 ==> Precedes(ByLongIdx, t[p + 1], t[q - 1]);
    assert t[p].longIdx < t[p + 1].longIdx < t[q].longIdx;
  }

  lemma MergePosition(t: seq<Field>, x: int)
    requires LongIdxOrdered(t, TOP_FIELD) && Complementary(LongIdxKey, t)
    ensures x in MergedFrames(t) <==> exists i :: i in Merges(t) && t[i].longIdx == x
  {
    hide LastOfFrame, Follows;
    if x in MergedFrames(t) {
      var i :| 0 <= i < |t| && IsMerged(t, t[i]) && x == t[i].longIdx;
      var j :| 0 <= j < |t| && Follows(t, t[i], t[j]) && t[j].frameNum == t[i].frameNum;
      NextFrame(t, i, j);
      EndOfFrame(t, i);
      assert MergeAt(t, i);
      assert i in Merges(t);
    }
    if exists i :: i in Merges(t) && t[i].longIdx == x {
      var i :| i in Merges(t) && t[i].longIdx == x;
      EndOfFrame(t, i);
      NextFrame(t, i, i + 1);
      assert Follows(t, t[i], t[i + 1]) && t[i + 1].frameNum == t[i].frameNum;
      assert IsMerged(t, t[i]);
    }
  }

  lemma AnyOf<T>(ps: set<T>) returns (i: T)
    requires ps != {}
    ensures i in ps
  {
    i :| i in ps;
  }

  // Positions with different indices are as many as their indices.
  lemma {:induction false} IndexCard(t: seq<Field>, ps: set<int>, xs: set<int>)
    requires forall i :: i in ps ==> 0 <= i < |t|
    requires forall i, j :: i in ps && j in ps && i != j ==> t[i].longIdx != t[j].longIdx
    requires forall x :: x in xs <==> exists i :: i in ps && t[i].longIdx == x
    ensures |ps| == |xs|
    decreases |ps|
  {
    if ps != {} {
      var i := AnyOf(ps);
      var x := t[i].longIdx;
      forall y ensures y in xs - {x} <==> exists j :: j in ps - {i} && t[j].longIdx == y {
        if y in xs - {x} {
          var j :| j in ps && t[j].longIdx == y;
          assert j in ps - {i};
        }
      }
      assert x in xs;
      IndexCard(t, ps - {i}, xs - {x});
    } else {
      assert xs == {};
    }
  }

  lemma StepsApart(t: seq<Field>)
    requires LongIdxOrdered(t, TOP_FIELD) && Complementary(LongIdxKey, t)
    ensures forall i, j :: i in Splits(t) && j in Splits(t) && i != j ==> t[i].longIdx != t[j].longIdx
    ensures forall i, j :: i in Merges(t) && j in Merges(t) && i != j ==> t[i].longIdx != t[j].longIdx
  {
    hide Complementary;
    forall i, j | 0 <= i < j && j + 1 < |t| && t[i].longIdx == t[j].longIdx
      ensures !SplitAt(t, j) && !MergeAt(t, i)
    {
      if t[j + 1].longIdx == t[j].longIdx {
        FrameIsPair(t, i, j + 1);
      }
      FrameIsPair(t, i, j);
    }
  }

  lemma StepsOfFrames(t: seq<Field>)
    requires LongIdxOrdered(t, TOP_FIELD) && Complementary(LongIdxKey, t)
    ensures |Splits(t)| == |SplitFrames(t)| && |Merges(t)| == |MergedFrames(t)|
  {
    hide Complementary, LongIdxOrdered, SplitFrames, MergedFrames;
    StepsApart(t);
    forall x ensures x in SplitFrames(t) <==> exists i :: i in Splits(t) && t[i].longIdx == x {
      SplitPosition(t, x);
    }
    IndexCard(t, Splits(t), SplitFrames(t));
    forall x ensures x in MergedFrames(t) <==> exists i :: i in Merges(t) && t[i].longIdx == x {
      MergePosition(t, x);
    }
    IndexCard(t, Merges(t), MergedFrames(t));
  }

  // With one field of each parity per index: how far the count is off, and when it
  // is right, from the fields as they stand before the call.
  lemma PairedCountExact(s: seq<Field>)
    requires Complementary(LongIdxKey, s)
    ensures LongCount(s) + |MergedFrames(s)| == |Frames(LongIdxKey, s)| + |SplitFrames(s)|
    ensures LongCount(s) == |Frames(LongIdxKey, s)| <==> |SplitFrames(s)| == |MergedFrames(s)|
  {
    hide LongSort, Complementary, Sorted, PairsInOrder, Frames, Splits, Merges, SplitFrames, MergedFrames,
         LongIdxOrdered;
    var t := LongSort(s, TOP_FIELD);
    LongSortFacts(s, TOP_FIELD);
    ComplementaryPermute(LongIdxKey, s, t);
    PermutationSym(t, s);
    SplitPermutes(s, t);
    SplitPermutes(t, s);
    MergedPermutes(s, t);
    MergedPermutes(t, s);
    assert SplitFrames(s) == SplitFrames(t) && MergedFrames(s) == MergedFrames(t);
    StepsOfFrames(t);
    LongCountExact(s);
  }

  // ---- failing inputs ----

  // The list as the loops leave it when it has two or three fields.
  lemma SortTwo(a: Field, b: Field, first: int)
    requires a.longIdx <= b.longIdx
    ensures LongSort([a, b], first) == if a.longIdx == b.longIdx && a.parity != first then [b, a] else [a, b]
  {
    var s := [a, b];
    assert ExchangeFrom(ByLongIdx, s, 0, 2) == ExchangeFrom(ByLongIdx, s, 1, 2) == s;
    assert Exchanged(ByLongIdx, s) == s;
    assert PairPass(LongIdxKey, first, PairStep(LongIdxKey, first, s, 0), 1) == PairStep(LongIdxKey, first, s, 0);
  }

  // Two long-term frames, indices 0 and 1, that share frame_num 5 count as one.
  lemma LongCountMisses(a: Field, b: Field)
    requires a.longIdx == 0 && b.longIdx == 1 && a.frameNum == b.frameNum == 5
    ensures LongCount([a, b]) == 1 && |Frames(LongIdxKey, [a, b])| == 2
  {
    SortTwo(a, b, TOP_FIELD);
    assert Keys(FrameNumKey, [a, b]) == [5, 5] && [5, 5][..1] == [5];
    assert Keys(LongIdxKey, [a, b]) == [0, 1];
    assert Frames(LongIdxKey, [a, b]) == {0, 1};
  }

  // One long-term frame whose fields have frame_nums 5 and 6 counts as two.
  lemma LongCountExceeds(a: Field, b: Field)
    requires a.longIdx == b.longIdx == 0 && a.parity == TOP_FIELD && b.parity == BOTTOM_FIELD
    requires a.frameNum == 5 && b.frameNum == 6
    ensures Complementary(LongIdxKey, [a, b])
    ensures LongCount([a, b]) == 2 && |Frames(LongIdxKey, [a, b])| == 1
  {
    SortTwo(a, b, TOP_FIELD);
    assert Keys(FrameNumKey, [a, b]) == [5, 6] && [5, 6][..1] == [5];
    assert Keys(LongIdxKey, [a, b]) == [0, 0];
    assert Frames(LongIdxKey, [a, b]) == {0};
  }

  // Fields of one index are not exchanged by the double loop.
  lemma {:induction false} AlikeStays(s: seq<Field>, i: nat, j: nat)
    requires forall k :: 0 <= k < |s| ==> s[k].longIdx == 0
    ensures ExchangeFrom(ByLongIdx, s, i, j) == s
    decreases |s| - i, |s| - j
  {
    if i < |s| {
      if j >= |s| {
        AlikeStays(s, i + 1, i + 2);
      } else {
        AlikeStays(s, i, j + 1);
      }
    }
  }

  lemma SortAlike(a: Field, b: Field, c: Field)
    requires a.longIdx == b.longIdx == c.longIdx == 0 && a.parity != TOP_FIELD
    ensures LongSort([a, b, c], TOP_FIELD) == [b, c, a]
  {
    var s := [a, b, c];
    AlikeStays(s, 0, 1);
    PairPassUnfold(LongIdxKey, TOP_FIELD, s, 0);
    PairPassUnfold(LongIdxKey, TOP_FIELD, [b, a, c], 1);
    PairPassUnfold(LongIdxKey, TOP_FIELD, [b, c, a], 2);
    assert PairStep(LongIdxKey, TOP_FIELD, s, 0) == [b, a, c];
    assert PairStep(LongIdxKey, TOP_FIELD, [b, a, c], 1) == [b, c, a];
  }

  // Two bottom fields and a top field with one index, frame_nums 1, 1 and 2: a
  // first count gives 3, a second count of the same fields gives 2.
  lemma LongCountUnstable(a: Field, b: Field, c: Field)
    requires a.longIdx == b.longIdx == c.longIdx == 0
    requires a.parity == b.parity == BOTTOM_FIELD && c.parity == TOP_FIELD
    requires a.frameNum == b.frameNum == 1 && c.frameNum == 2
    ensures LongCount([a, b, c]) == 3 && LongCount(LongSort([a, b, c], TOP_FIELD)) == 2
  {
    SortAlike(a, b, c);
    SortAlike(b, c, a);
    assert Keys(FrameNumKey, [b, c, a]) == [1, 2, 1] && [1, 2, 1][..2] == [1, 2] && [1, 2][..1] == [1];
    assert Keys(FrameNumKey, [c, a, b]) == [2, 1, 1] && [2, 1, 1][..2] == [2, 1] && [2, 1][..1] == [2];
  }
}
