// Theorems about several calls on one manager.
module DpbRuns {
  import opened Pictures
  import opened FieldOrder
  import opened Pairing
  import opened Counting
  import opened Orderings
  import opened LongTermCount
  import opened DpbLists
  import opened DpbManager

  // ---- sliding window and frame count ----

  lemma NewerFrameNums(start: seq<Field>, r: seq<Field>, cur: int, max: int)
    requires NewerOf(start, r, cur, max) && FrameNumsIn(start, max)
    ensures FrameNumsIn(r, max)
  {
  }

  // Counting, sliding the window and counting again. The short-term part drops by
  // one, or an empty list stays; the long-term part is counted on the list the
  // first count left.
  method SlideAndCount(mgr: DpbMgr, cur: int, max: int) returns (before: int, after: int)
    requires mgr.Valid()
    requires Complementary(FrameNumKey, Fields(mgr.short)) && FrameNumsIn(Fields(mgr.short), max)
    modifies mgr, Nodes(mgr.infos), PicSet(Pics(mgr.short))
    ensures mgr.Valid()
    ensures before == |old(Frames(FrameNumKey, Fields(mgr.short)))| + LongCount(old(Fields(mgr.long)))
    ensures var long, drop := old(Fields(mgr.long)), if old(mgr.short) == [] then 0 else 1;
            && after - before == LongCount(LongSort(long, TOP_FIELD)) - LongCount(long) - drop
            && (after == before - drop <==> LongCount(LongSort(long, TOP_FIELD)) == LongCount(long))
            && (Complementary(LongIdxKey, long) || IdxFixesFrameNum(long) ==> after == before - drop)
  {
    hide DpbMgr.Valid, Complementary, FrameNumsIn, IdxFixesFrameNum, NeighboursDiffer, Permutation, Sorted, Frames,
         Keys, Runs, Pics, Views, Fields, NewerOf, WindowMarked, Live, Chained, LongSort, LongCount;
    mgr.ValidLive();
    ghost var short0, long0 := Fields(mgr.short), Fields(mgr.long);
    PicsInFields(mgr.short);
    before := mgr.CountRefFrames(cur, max);
    mgr.ValidLive();
    ghost var short1 := Fields(mgr.short);
    PicsInFields(mgr.short);
    PicsInPermute(short1, short0);
    ComplementaryPermute(FrameNumKey, short0, short1);
    FrameNumsPermute(short0, short1, max);
    FramesPermute(FrameNumKey, short1, short0);
    var ret; ghost var kept;
    ret, kept := mgr.DeleteShortRefFrame(cur, max);
    mgr.ValidLive();
    NewerFrameNums(short1, Fields(mgr.short), cur, max);
    after := mgr.CountRefFrames(cur, max);
    if Complementary(LongIdxKey, long0) || IdxFixesFrameNum(long0) {
      LongCountStable(long0);
    }
  }

  // ---- the two lists of a B slice ----

  // Sorting for list 1 after list 0 leaves, before the pairing pass, the list 0
  // sequence rotated to start behind the current picture.
  method SortBothLists(mgr: DpbMgr, cur: int, first: int)
    returns (ghost l0: seq<Field>, ghost l1: seq<Field>, ghost k: nat)
    requires mgr.Valid()
    requires DistinctPocs(Fields(mgr.short)) && AllComparable(ByPocL0(cur), Fields(mgr.short))
    modifies Nodes(mgr.short)`picBuf
    ensures mgr.Valid()
    ensures Permutation(l0, old(Fields(mgr.short))) && PocL0At(l0, cur, k)
    ensures l1 == Rotate(l0, k)
    ensures Fields(mgr.short) == PairPass(FrameNumKey, first, l1, 0)
  {
    hide DpbMgr.Valid, DistinctPocs, Permutation, Sorted, Pics, Views, Fields, PocL0At, PocL1At, PairPass,
         Rotate, Live, Chained;
    mgr.ValidLive();
    ghost var start := Fields(mgr.short);
    var ret;
    ghost var k1;
    ret, l0, k := mgr.SortShortByPocL0(cur, first);
    mgr.ValidLive();
    ghost var mid := Fields(mgr.short);
    ComparablePermute(ByPocL0(cur), start, mid);
    ret, l1, k1 := mgr.SortShortByPocL1(cur, first);
    mgr.ValidLive();
    PermutationTrans(l1, mid, start);
    k := ListOneRotatesListZero(start, cur, l0, l1);
  }

  // ---- starting over ----

  lemma NextIsNew<T>(s: seq<T>, i: nat)
    requires Distinct(s) && i < |s|
    ensures s[i] !in s[..i] && s[..i + 1] == s[..i] + [s[i]]
  {
  }

  method RefillOne(mgr: DpbMgr, fields: seq<PicBuf>, i: nat, ref: int, frameNum: int, longTermFrameIdx: int)
    requires mgr.Valid() && Distinct(fields) && i < |fields| == MAX_DPB_BUFS
    requires |mgr.short| + |mgr.long| == i == |mgr.List(ref)|
    requires forall j :: 0 <= j < i ==> mgr.List(ref)[i - 1 - j].picBuf == fields[j]
    requires forall n :: n in Nodes(mgr.infos) && n.picBuf != null ==> n.picBuf in fields[..i]
    modifies mgr, Nodes(mgr.infos), fields[i]
    ensures mgr.Valid() && |mgr.short| + |mgr.long| == i + 1 == |mgr.List(ref)|
    ensures forall j :: 0 <= j < i + 1 ==> mgr.List(ref)[i - j].picBuf == fields[j]
    ensures forall n :: n in Nodes(mgr.infos) && n.picBuf != null ==> n.picBuf in fields[..i + 1]
  {
    hide Chained, Live, Distinct, DpbMgr.Valid;
    NextIsNew(fields, i);
    mgr.ValidLive();
    var ret;
    ghost var node;
    ret, node := mgr.InsertRefField(fields[i], ref, frameNum, longTermFrameIdx);
  }

  // After everything is deleted the buffer takes 64 fields again.
  method ClearAndRefill(mgr: DpbMgr, fields: seq<PicBuf>, ref: int, frameNum: int, longTermFrameIdx: int)
    requires mgr.Valid() && Distinct(fields) && |fields| == MAX_DPB_BUFS
    modifies mgr, Nodes(mgr.infos), mgr.Listed(), PicSet(fields)
    ensures mgr.Valid() && |mgr.List(ref)| == MAX_DPB_BUFS
    ensures forall i :: 0 <= i < MAX_DPB_BUFS ==> mgr.List(ref)[MAX_DPB_BUFS - 1 - i].picBuf == fields[i]
  {
    hide Distinct, Chained, Live, OnArray, Covered;
    var ret := mgr.DeleteAllRefFrames();
    var i := 0;
    while i < |fields|
      invariant 0 <= i <= |fields|
      invariant mgr.Valid() && |mgr.short| + |mgr.long| == i == |mgr.List(ref)|
      invariant forall j :: 0 <= j < i ==> mgr.List(ref)[i - 1 - j].picBuf == fields[j]
      invariant forall n :: n in Nodes(mgr.infos) && n.picBuf != null ==> n.picBuf in fields[..i]
    {
      RefillOne(mgr, fields, i, ref, frameNum, longTermFrameIdx);
      i := i + 1;
    }
  }
}
