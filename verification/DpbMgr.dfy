// The decoded picture buffer manager.
module DpbManager {
  import opened Pictures
  import opened FieldOrder
  import opened Pairing
  import opened Alternation
  import opened Counting
  import opened Marking
  import opened ExchangeSort
  import opened Orderings
  import opened LongTermCount
  import opened DpbLists
  import opened DpbDeletion

  const MAX_DPB_BUFS := 64

  // The nodes of both lists are nodes of the array, each on one list and once.
  ghost predicate OnArray(infos: seq<DpbInfo>, short: seq<DpbInfo>, long: seq<DpbInfo>) {
    && Distinct(short) && Distinct(long)
    && Nodes(short) !! Nodes(long)
    && Nodes(short) <= Nodes(infos) && Nodes(long) <= Nodes(infos)
  }

  // A node on neither list is free.
  ghost predicate Covered(infos: seq<DpbInfo>, short: seq<DpbInfo>, long: seq<DpbInfo>)
    reads Nodes(infos)`picBuf
  {
    forall n :: n in Nodes(infos) && n.picBuf != null ==> n in Nodes(short) || n in Nodes(long)
  }

  lemma OnArrayChange(infos: seq<DpbInfo>, short: seq<DpbInfo>, long: seq<DpbInfo>,
                      short': seq<DpbInfo>, long': seq<DpbInfo>)
    requires OnArray(infos, short, long) && Distinct(short') && Distinct(long')
    requires Nodes(short') <= Nodes(short) && Nodes(long') <= Nodes(long)
    ensures OnArray(infos, short', long')
  {
  }

  // The elements of the embedded arrays are different objects.
  ghost predicate NoSharing(infos: seq<DpbInfo>, topPics: seq<PicBuf>, bottomPics: seq<PicBuf>) {
    Distinct(infos) && Distinct(topPics) && Distinct(bottomPics) && PicSet(topPics) !! PicSet(bottomPics)
  }

  class DpbMgr {
    const infos: seq<DpbInfo>        // as_dpb_info
    const topPics: seq<PicBuf>       // as_top_field_pics
    const bottomPics: seq<PicBuf>    // as_bottom_field_pics
    var shortHead: DpbInfo?
    var longHead: DpbInfo?

    // The nodes on each list, from the head on.
    ghost var short: seq<DpbInfo>
    ghost var long: seq<DpbInfo>

    // The embedded arrays.
    ghost predicate Shape() {
      |infos| == |topPics| == |bottomPics| == MAX_DPB_BUFS && NoSharing(infos, topPics, bottomPics)
    }

    // Both lists are null-terminated chains of nodes of the array, no node is on
    // both or twice on one, and the nodes with a picture are exactly those on a list.
    ghost predicate Valid()
      reads this, Nodes(infos), Nodes(short), Nodes(long)
    {
      && Shape()
      && OnArray(infos, short, long)
      && Live(short) && Live(long)
      && Chained(shortHead, short) && Chained(longHead, long)
      && Covered(infos, short, long)
    }

    lemma ValidLive()
      requires Valid()
      ensures Live(short) && Live(long)
      ensures Chained(shortHead, short) && Chained(longHead, long)
      ensures Nodes(short) <= Nodes(infos) && Nodes(long) <= Nodes(infos)
      ensures (shortHead == null <==> short == []) && (longHead == null <==> long == [])
    {
    }

    // The memory the manager works on.
    constructor ()
      ensures Valid() && short == [] && long == []
      ensures forall n :: n in Nodes(infos) ==> n.picBuf == null
      ensures fresh(Nodes(infos)) && fresh(PicSet(topPics + bottomPics))
    {
      var ns: seq<DpbInfo>, ts: seq<PicBuf>, bs: seq<PicBuf> := [], [], [];
      for i := 0 to MAX_DPB_BUFS
        invariant |ns| == |ts| == |bs| == i
        invariant fresh(Nodes(ns)) && fresh(PicSet(ts)) && fresh(PicSet(bs))
        invariant Distinct(ns) && Distinct(ts) && Distinct(bs) && PicSet(ts) !! PicSet(bs)
      {
        var n := new DpbInfo();
        var t := new PicBuf();
        var b := new PicBuf();
        ns, ts, bs := ns + [n], ts + [t], bs + [b];
      }
      infos, topPics, bottomPics := ns, ts, bs;
      shortHead, longHead := null, null;
      short, long := [], [];
      new;
      Init();
    }

    // ih264_dpb_mgr_init: forget all nodes and mark every field invalid.
    method Init()
      requires Shape()
      modifies this, Nodes(infos), PicSet(topPics + bottomPics)
      ensures Valid() && short == [] && long == []
      ensures forall n :: n in Nodes(infos) ==> n.picBuf == null && n.prevDpb == null
      ensures forall p :: p in PicSet(topPics + bottomPics) ==>
                p.usedAsRef == INVALID && p.fieldType == INVALID && p.longTermFrameIdx == -1
    {
      hide NoSharing;
      for i := 0 to MAX_DPB_BUFS
        invariant forall j :: 0 <= j < i ==> infos[j].picBuf == null && infos[j].prevDpb == null
        invariant forall j :: 0 <= j < i ==> topPics[j].usedAsRef == topPics[j].fieldType == INVALID
        invariant forall j :: 0 <= j < i ==> bottomPics[j].usedAsRef == bottomPics[j].fieldType == INVALID
        invariant forall j :: 0 <= j < i ==> topPics[j].longTermFrameIdx == bottomPics[j].longTermFrameIdx == -1
      {
        infos[i].prevDpb := null;
        infos[i].picBuf := null;
        topPics[i].usedAsRef := INVALID;
        bottomPics[i].usedAsRef := INVALID;
        topPics[i].fieldType := INVALID;
        bottomPics[i].fieldType := INVALID;
        topPics[i].longTermFrameIdx := -1;
        bottomPics[i].longTermFrameIdx := -1;
      }
      shortHead := null;
      longHead := null;
      short, long := [], [];
    }

    // reference_type selects a list: anything but SHORT_TERM_REF is long-term.
    ghost function List(ref: int): seq<DpbInfo>
      reads this
    {
      if ref == SHORT_TERM_REF then short else long
    }

    // A sort of the short-term list; mid is the list before the pairing pass.
    method SortShort(order: Order, first: int) returns (ret: int, ghost mid: seq<Field>)
      requires Valid()
      modifies Nodes(short)`picBuf
      ensures Valid() && Fields(long) == old(Fields(long))
      ensures ret == if short == [] then -1 else 0
      ensures mid == Exchanged(order, old(Fields(short))) && Permutation(mid, old(Fields(short)))
      ensures Permutation(Fields(short), old(Fields(short)))
      ensures old(AllComparable(order, Fields(short))) ==> Sorted(order, mid)
      ensures Fields(short) == PairPass(FrameNumKey, first, mid, 0)
      ensures PicSet(Pics(short)) == old(PicSet(Pics(short)))
    {
      hide Pics, Views, AllComparable, Sorted, PairPass, Exchanged, Permutation, Distinct, NoSharing, PicSet;
      ret, mid := SortNodes(order, FrameNumKey, first, shortHead, short);
    }

    method SortShortByFrameNum(cur: int, first: int, max: int) returns (ret: int)
      requires Valid()
      modifies Nodes(short)`picBuf
      ensures Valid() && Fields(long) == old(Fields(long))
      ensures ret == if short == [] then -1 else 0
      ensures Fields(short) == PairPass(FrameNumKey, first, Exchanged(ByFrameNum(cur, max), old(Fields(short))), 0)
      ensures Permutation(Fields(short), old(Fields(short)))
      ensures Sorted(ByFrameNum(cur, max), Fields(short))
      ensures old(FrameNumsIn(Fields(short), max)) && 0 <= cur < max ==> NewestFirst(Fields(short), cur, max)
      ensures old(Complementary(FrameNumKey, Fields(short))) && IsParity(first) ==>
                FrameNumOrdered(Fields(short), cur, max, first)
      ensures PicSet(Pics(short)) == old(PicSet(Pics(short)))
    {
      hide Pics, Views, Valid, Complementary, PairPass, Exchanged, Permutation, Sorted, FrameNumsIn, NewestFirst;
      ValidLive();
      ghost var start := Fields(short);
      ghost var mid;
      ret, mid := SortShort(ByFrameNum(cur, max), first);
      PairedFrameNumSorted(mid, cur, max, first);
      if FrameNumsIn(start, max) && 0 <= cur < max {
        FrameNumsPermute(start, Fields(short), max);
        SortedByAge(Fields(short), cur, max);
      }
      if Complementary(FrameNumKey, start) && IsParity(first) {
        ComplementaryPermute(FrameNumKey, start, mid);
        PairedFrameNumOrder(mid, cur, max, first);
      }
    }

    // mid is the list the exchange loops leave: k fields before the current
    // picture, nearest first, then those after it.
    method SortShortByPocL0(cur: int, first: int) returns (ret: int, ghost mid: seq<Field>, ghost k: nat)
      requires Valid()
      modifies Nodes(short)`picBuf
      ensures Valid() && Fields(long) == old(Fields(long))
      ensures ret == if short == [] then -1 else 0
      ensures mid == Exchanged(ByPocL0(cur), old(Fields(short)))
      ensures Permutation(mid, old(Fields(short))) && Permutation(Fields(short), old(Fields(short)))
      ensures old(AllComparable(ByPocL0(cur), Fields(short))) ==> Sorted(ByPocL0(cur), mid) && PocL0At(mid, cur, k)
      ensures Fields(short) == PairPass(FrameNumKey, first, mid, 0)
    {
      hide Pics, Views, Valid, AllComparable, PairPass, Exchanged, Permutation, Sorted, PocL0At;
      ValidLive();
      ghost var start := Fields(short);
      ret, mid := SortShort(ByPocL0(cur), first);
      k := 0;
      if AllComparable(ByPocL0(cur), start) {
        ComparablePermute(ByPocL0(cur), start, mid);
        k := SortedPocL0(mid, cur);
      }
    }

    // mid is the list the exchange loops leave: k fields after the current
    // picture, nearest first, then those before it.
    method SortShortByPocL1(cur: int, first: int) returns (ret: int, ghost mid: seq<Field>, ghost k: nat)
      requires Valid()
      modifies Nodes(short)`picBuf
      ensures Valid() && Fields(long) == old(Fields(long))
      ensures ret == if short == [] then -1 else 0
      ensures mid == Exchanged(ByPocL1(cur), old(Fields(short)))
      ensures Permutation(mid, old(Fields(short))) && Permutation(Fields(short), old(Fields(short)))
      ensures old(AllComparable(ByPocL1(cur), Fields(short))) ==> Sorted(ByPocL1(cur), mid) && PocL1At(mid, cur, k)
      ensures Fields(short) == PairPass(FrameNumKey, first, mid, 0)
    {
      hide Pics, Views, Valid, AllComparable, PairPass, Exchanged, Permutation, Sorted, PocL1At;
      ValidLive();
      ghost var start := Fields(short);
      ret, mid := SortShort(ByPocL1(cur), first);
      k := 0;
      if AllComparable(ByPocL1(cur), start) {
        ComparablePermute(ByPocL1(cur), start, mid);
        k := SortedPocL1(mid, cur);
      }
    }

    // The sort of the long-term list, before what it means is drawn out.
    method SortLong(first: int) returns (ret: int)
      requires Valid()
      modifies Nodes(long)`picBuf
      ensures Valid() && Fields(short) == old(Fields(short))
      ensures ret == if long == [] then -1 else 0
      ensures Fields(long) == LongSort(old(Fields(long)), first)
    {
      hide Pics, Views, AllComparable, Sorted, PairPass, Exchanged, Permutation, Distinct, NoSharing, PicSet;
      ghost var mid;
      ret, mid := SortNodes(ByLongIdx, LongIdxKey, first, longHead, long);
    }

    method SortLongByFrameIdx(first: int) returns (ret: int)
      requires Valid()
      modifies Nodes(long)`picBuf
      ensures Valid() && Fields(short) == old(Fields(short))
      ensures ret == if long == [] then -1 else 0
      ensures Fields(long) == LongSort(old(Fields(long)), first)
      ensures Permutation(Fields(long), old(Fields(long)))
      ensures Sorted(ByLongIdx, Fields(long))
      ensures forall i, j :: 0 <= i < j < |Fields(long)| ==> Fields(long)[i].longIdx <= Fields(long)[j].longIdx
      ensures old(Complementary(LongIdxKey, Fields(long))) && IsParity(first) ==> LongIdxOrdered(Fields(long), first)
    {
      hide Pics, Views, Valid, Complementary, LongSort, Permutation, Sorted, PairsInOrder;
      ValidLive();
      ghost var start := Fields(long);
      ret := SortLong(first);
      LongSortFacts(start, first);
      IdxAscends(Fields(long));
    }

    method AlternateShort(first: int)
      requires Valid()
      modifies `short, `shortHead, Nodes(short)`prevDpb
      ensures Valid() && Fields(long) == old(Fields(long))
      ensures Permutation(short, old(short))
      ensures Fields(short) == Alternate(old(Fields(short)), first)
    {
      hide Pics, Views, Fields, Alternate, Permutation, Distinct, Chained, Live;
      ghost var cur;
      shortHead, cur := AlternateNodes(shortHead, first, short);
      OnArrayChange(infos, short, long, cur, long);
      short := cur;
    }

    method AlternateLong(first: int)
      requires Valid()
      modifies `long, `longHead, Nodes(long)`prevDpb
      ensures Valid() && Fields(short) == old(Fields(short))
      ensures Permutation(long, old(long))
      ensures Fields(long) == Alternate(old(Fields(long)), first)
    {
      hide Pics, Views, Fields, Alternate, Permutation, Distinct, Chained, Live;
      ghost var cur;
      longHead, cur := AlternateNodes(longHead, first, long);
      OnArrayChange(infos, short, long, short, cur);
      long := cur;
    }

    // The relinking that alternates parities on the list reference_type selects.
    method AlternateRefFields(ref: int, first: int) returns (ret: int)
      requires Valid()
      modifies `short, `shortHead, `long, `longHead, Nodes(List(ref))`prevDpb
      ensures Valid() && ret == 0
      ensures Permutation(List(ref), old(List(ref)))
      ensures Fields(List(ref)) == Alternate(old(Fields(List(ref))), first)
      ensures if ref == SHORT_TERM_REF then unchanged(`long, `longHead) else unchanged(`short, `shortHead)
      ensures Fields(List(OtherList(ref))) == old(Fields(List(OtherList(ref))))
    {
      hide Pics, Views, Fields, Alternate, Permutation, Valid, Live, Chained, OnArray, Covered, Nodes, PicSet;
      ValidLive();
      if ref == SHORT_TERM_REF {
        AlternateShort(first);
      } else {
        AlternateLong(first);
      }
      ret := 0;
    }

    method DeleteShortLast() returns (ghost kept: nat)
      requires Valid()
      modifies `short, `shortHead, Nodes(short)`picBuf, Nodes(short)`prevDpb, PicSet(Pics(short))`usedAsRef
      ensures Valid() && Fields(long) == old(Fields(long))
      ensures kept == KeepLen(old(Fields(short))) && short == old(short[..kept])
      ensures CutAt(old(short), old(Pics(short)), old(Marks(PicSet(Pics(short)))), kept)
      ensures Fields(short) == old(Fields(short))[..kept]
    {
      hide Pics, Views, Fields, Marks, KeepLen, CutAt, Marked, Distinct, Chained, Live, NoSharing, PicSet;
      shortHead, kept := CutEnd(shortHead, short);
      OnArrayChange(infos, short, long, short[..kept], long);
      short := short[..kept];
    }

    method DeleteLongLast() returns (ghost kept: nat)
      requires Valid()
      modifies `long, `longHead, Nodes(long)`picBuf, Nodes(long)`prevDpb, PicSet(Pics(long))`usedAsRef
      ensures Valid() && Fields(short) == old(Fields(short))
      ensures kept == KeepLen(old(Fields(long))) && long == old(long[..kept])
      ensures CutAt(old(long), old(Pics(long)), old(Marks(PicSet(Pics(long)))), kept)
      ensures Fields(long) == old(Fields(long))[..kept]
    {
      hide Pics, Views, Fields, Marks, KeepLen, CutAt, Marked, Distinct, Chained, Live, NoSharing, PicSet;
      longHead, kept := CutEnd(longHead, long);
      OnArrayChange(infos, short, long, short, long[..kept]);
      long := long[..kept];
    }

    // Delete the frame at the end of the list reference_type selects.
    method DeleteRefFrame(ref: int) returns (ret: int, ghost kept: nat)
      requires Valid()
      modifies `short, `shortHead, `long, `longHead
      modifies Nodes(List(ref))`picBuf, Nodes(List(ref))`prevDpb, PicSet(Pics(List(ref)))`usedAsRef
      ensures Valid() && ret == 0
      ensures if ref == SHORT_TERM_REF then
                && kept == KeepLen(old(Fields(short))) && short == old(short[..kept])
                && Fields(short) == old(Fields(short))[..kept]
                && CutAt(old(short), old(Pics(short)), old(Marks(PicSet(Pics(short)))), kept)
                && unchanged(`long, `longHead) && Fields(long) == old(Fields(long))
              else
                && kept == KeepLen(old(Fields(long))) && long == old(long[..kept])
                && Fields(long) == old(Fields(long))[..kept]
                && CutAt(old(long), old(Pics(long)), old(Marks(PicSet(Pics(long)))), kept)
                && unchanged(`short, `shortHead) && Fields(short) == old(Fields(short))
    {
      hide Pics, Views, Fields, Marks, KeepLen, CutAt, Marked, Distinct, Chained, Live, Valid, Nodes, PicSet;
      ValidLive();
      if ref == SHORT_TERM_REF {
        kept := DeleteShortLast();
      } else {
        kept := DeleteLongLast();
      }
      ret := 0;
    }

    // Delete long-term fields above the maximum index, as far as the loops do.
    // gone lists the pictures of the nodes that were freed.
    method DeleteLongAboveMaxIdx(max: int) returns (ret: int, ghost gone: seq<PicBuf>)
      requires Valid()
      modifies `long, `longHead, Nodes(long)`picBuf, Nodes(long)`prevDpb, PicSet(Pics(long))`usedAsRef
      ensures Valid() && ret == 0 && Fields(short) == old(Fields(short))
      ensures Fields(long) == Trim(old(Fields(long)), max)
      ensures Within(Fields(long), max) == Within(old(Fields(long)), max)
      ensures Fields(long) == Within(old(Fields(long)), max) <==> Trimmable(old(Fields(long)), max)
      ensures Thinned(old(long), old(Pics(long)), old(Marks(PicSet(Pics(long)))), long, gone)
    {
      hide Within, Trimmable, Pics, Views, Fields, Marks, Marked, Distinct, Live, Chained, Trim, Thinned, NoSharing, PicSet;
      ghost var cur;
      TrimKeepsWithin(Fields(long), max);
      TrimComplete(Fields(long), max);
      longHead, cur, gone := TrimNodes(longHead, max, long);
      OnArrayChange(infos, short, long, short, cur);
      long := cur;
      ret := 0;
    }

    // Sliding window: delete the short-term frame with the least FrameNumWrap.
    method DeleteShortRefFrame(cur: int, max: int) returns (ret: int, ghost kept: nat)
      requires Valid()
      modifies `short, `shortHead, `long, `longHead
      modifies Nodes(short)`picBuf, Nodes(short)`prevDpb, PicSet(Pics(short))`usedAsRef
      ensures Valid() && ret == 0
      ensures unchanged(`long, `longHead) && Fields(long) == old(Fields(long))
      ensures kept <= old(|short|) && (old(short) != [] ==> kept < old(|short|))
      ensures short == old(short)[..kept] && PicsIn(Fields(short)) <= PicsIn(old(Fields(short)))
      ensures var s := PairPass(FrameNumKey, TOP_FIELD, Exchanged(ByFrameNum(cur, max), old(Fields(short))), 0);
              kept == KeepLen(s) && Fields(short) == s[..kept]
      ensures old(Complementary(FrameNumKey, Fields(short))) && old(FrameNumsIn(Fields(short), max)) ==>
                && NewerOf(old(Fields(short)), Fields(short), cur, max)
                && WindowMarked(old(Fields(short)), old(Marks(PicSet(Pics(short)))), cur, max)
                && |Frames(FrameNumKey, Fields(short))|
                   == |Frames(FrameNumKey, old(Fields(short)))| - if old(short) == [] then 0 else 1
      ensures old(Complementary(FrameNumKey, Fields(short)) && FrameNumsIn(Fields(short), max)) && 0 <= cur < max ==>
                EldestGone(old(Fields(short)), Fields(short), old(Marks(PicSet(Pics(short)))), cur, max)
    {
      hide Views, Pics, Valid, Complementary, FrameNumsIn, NewerOf, Oldest, Frames, KeepLen, EldestGone, NewestFirst,
           Permutation, Sorted, PicSet, PicsIn, Nodes, Distinct, WindowMarked, Marked, FrameNumOrdered,
           PairPass, Exchanged;
      ValidLive();
      ghost var start, was := Fields(short), Marks(PicSet(Pics(short)));
      var _ := SortShortByFrameNum(cur, TOP_FIELD, max);
      assert Marks(PicSet(Pics(short))) == was;
      ValidLive();
      ghost var s, ps := Fields(short), Pics(short);
      PicsInFields(short);
      ret, kept := DeleteRefFrame(SHORT_TERM_REF);
      PicsInPermute(s, start);
      PrefixPics(s, kept);
      if Complementary(FrameNumKey, start) && FrameNumsIn(start, max) {
        SlidingWindowFacts(start, s, cur, max);
        WindowMarks(start, s, ps, was, kept, cur, max);
        if 0 <= cur < max {
          WindowByAge(start, Fields(short), was, cur, max);
        }
      }
    }

    // The pictures on both lists.
    ghost function Listed(): set<PicBuf>
      requires Live(short) && Live(long)
      reads this, Nodes(short)`picBuf, Nodes(long)`picBuf
    {
      PicSet(Pics(short)) + PicSet(Pics(long))
    }

    method DrainShortOnce(ghost all: set<PicBuf>)
      requires Valid() && shortHead != null && Drained(all, Listed())
      modifies `short, `shortHead, `long, `longHead
      modifies Nodes(short)`picBuf, Nodes(short)`prevDpb, PicSet(Pics(short))`usedAsRef
      ensures Valid() && unchanged(`long, `longHead) && Pics(long) == old(Pics(long))
      ensures |short| < old(|short|)
      ensures Nodes(short) <= old(Nodes(short)) && PicSet(Pics(short)) <= old(PicSet(Pics(short)))
      ensures Drained(all, Listed())
    {
      hide Views, Valid, Distinct, Chained, CutAt, Marked, PicSet;
      ValidLive();
      ghost var list, ps, was := short, Pics(short), Marks(PicSet(Pics(short)));
      ghost var others := PicSet(Pics(long));
      var ret; ghost var kept;
      ret, kept := DeleteRefFrame(SHORT_TERM_REF);
      ValidLive();
      DrainStep(all, others, list, ps, was, kept);
    }

    method DrainShort(ghost all: set<PicBuf>)
      requires Valid() && Drained(all, Listed())
      modifies `short, `shortHead, `long, `longHead
      modifies Nodes(short)`picBuf, Nodes(short)`prevDpb, PicSet(Pics(short))`usedAsRef
      ensures Valid() && short == [] && shortHead == null && unchanged(`long, `longHead)
      ensures Drained(all, Listed())
    {
      hide Views, Pics, Valid, Distinct, Chained, PicSet, Nodes, Drained;
      ValidLive();
      while shortHead != null
        invariant Valid() && unchanged(`long, `longHead) && Live(short) && Live(long)
        invariant Nodes(short) <= old(Nodes(short)) && PicSet(Pics(short)) <= old(PicSet(Pics(short)))
        invariant Drained(all, Listed())
        decreases |short|
      {
        DrainShortOnce(all);
        ValidLive();
      }
      ValidLive();
    }

    method DrainLongOnce(ghost all: set<PicBuf>)
      requires Valid() && longHead != null && Drained(all, Listed())
      modifies `long, `longHead, `short, `shortHead
      modifies Nodes(long)`picBuf, Nodes(long)`prevDpb, PicSet(Pics(long))`usedAsRef
      ensures Valid() && unchanged(`short, `shortHead) && Pics(short) == old(Pics(short))
      ensures |long| < old(|long|)
      ensures Nodes(long) <= old(Nodes(long)) && PicSet(Pics(long)) <= old(PicSet(Pics(long)))
      ensures Drained(all, Listed())
    {
      hide Views, Valid, Distinct, Chained, CutAt, Marked, PicSet;
      ValidLive();
      ghost var list, ps, was := long, Pics(long), Marks(PicSet(Pics(long)));
      ghost var others := PicSet(Pics(short));
      var ret; ghost var kept;
      ret, kept := DeleteRefFrame(LONG_TERM_REF);
      ValidLive();
      DrainStep(all, others, list, ps, was, kept);
    }

    method DrainLong(ghost all: set<PicBuf>)
      requires Valid() && Drained(all, Listed())
      modifies `long, `longHead, `short, `shortHead
      modifies Nodes(long)`picBuf, Nodes(long)`prevDpb, PicSet(Pics(long))`usedAsRef
      ensures Valid() && long == [] && longHead == null && unchanged(`short, `shortHead)
      ensures Drained(all, Listed())
    {
      hide Views, Pics, Valid, Distinct, Chained, PicSet, Nodes, Drained;
      ValidLive();
      while longHead != null
        invariant Valid() && unchanged(`short, `shortHead) && Live(long) && Live(short)
        invariant Nodes(long) <= old(Nodes(long)) && PicSet(Pics(long)) <= old(PicSet(Pics(long)))
        invariant Drained(all, Listed())
        decreases |long|
      {
        DrainLongOnce(all);
        ValidLive();
      }
      ValidLive();
    }

    // Delete every reference frame: both loops end, both lists and all nodes are
    // free, and no picture that was listed is in use for reference.
    method DeleteAllRefFrames() returns (ret: int)
      requires Valid()
      modifies `short, `shortHead, `long, `longHead
      modifies Nodes(infos)`picBuf, Nodes(infos)`prevDpb, Listed()`usedAsRef
      ensures Valid() && ret == 0
      ensures short == [] && long == [] && shortHead == null && longHead == null
      ensures forall n :: n in Nodes(infos) ==> n.picBuf == null
      ensures forall p :: p in old(Listed()) ==>
                p.usedAsRef == UNUSED_FOR_REF && p.usedAsRef != SHORT_TERM_REF && p.usedAsRef != LONG_TERM_REF
    {
      hide Views, Distinct, Chained, Pics;
      ghost var all := Listed();
      DrainShort(all);
      DrainLong(all);
      ret := 0;
    }

    // Some node holds the picture and the picture is marked with this type.
    ghost predicate Present(pic: PicBuf, ref: int)
      reads Nodes(infos)`picBuf, pic`usedAsRef
    {
      pic.usedAsRef == ref && exists i :: 0 <= i < |infos| && infos[i].picBuf == pic
    }

    // The lists never hold more nodes than there are, and no node is free
    // exactly when they hold them all.
    lemma Capacity()
      requires Valid()
      ensures |short| + |long| <= MAX_DPB_BUFS == 64
      ensures |short| + |long| == MAX_DPB_BUFS <==> forall i :: 0 <= i < |infos| ==> infos[i].picBuf != null
    {
      NodesCard(short);
      NodesCard(long);
      NodesCard(infos);
      var used := Nodes(short) + Nodes(long);
      assert |used| == |short| + |long|;
      SubsetCard(used, Nodes(infos));
      if forall i :: 0 <= i < |infos| ==> infos[i].picBuf != null {
        assert Nodes(infos) <= used;
        assert used == Nodes(infos);
      }
    }

    method PushShort(node: DpbInfo, pic: PicBuf)
      requires Valid() && node in Nodes(infos) && node.picBuf == null
      modifies `short, `shortHead, node
      ensures Valid() && short == [node] + old(short) && node.picBuf == pic
    {
      ghost var list := [node] + short;
      DistinctPush(node, short);
      node.picBuf := pic;
      node.prevDpb := shortHead;
      shortHead := node;
      short := list;
      assert Nodes(list) == {node} + Nodes(old(short));
    }

    method PushLong(node: DpbInfo, pic: PicBuf)
      requires Valid() && node in Nodes(infos) && node.picBuf == null
      modifies `long, `longHead, node
      ensures Valid() && long == [node] + old(long) && node.picBuf == pic
    {
      ghost var list := [node] + long;
      DistinctPush(node, long);
      node.picBuf := pic;
      node.prevDpb := longHead;
      longHead := node;
      long := list;
      assert Nodes(list) == {node} + Nodes(old(long));
    }

    // Give a free node the picture, update the picture and make the node the
    // head of the list reference_type selects.
    method LinkAtHead(node: DpbInfo, pic: PicBuf, ref: int, frameNum: int, longTermFrameIdx: int)
      requires Valid() && node in Nodes(infos) && node.picBuf == null
      modifies `short, `shortHead, `long, `longHead, node, pic`usedAsRef, pic`frameNum, pic`longTermFrameIdx
      ensures Valid() && node.picBuf == pic
      ensures if ref == SHORT_TERM_REF then short == [node] + old(short) && unchanged(`long, `longHead)
              else long == [node] + old(long) && unchanged(`short, `shortHead)
      ensures pic.usedAsRef == ref && pic.frameNum == frameNum
      ensures pic.longTermFrameIdx == if ref == SHORT_TERM_REF then -1 else longTermFrameIdx
    {
      hide Distinct;
      if ref == SHORT_TERM_REF {
        PushShort(node, pic);
      } else {
        PushLong(node, pic);
      }
      pic.usedAsRef := ref;
      pic.frameNum := frameNum;
      pic.longTermFrameIdx := if ref == SHORT_TERM_REF then -1 else longTermFrameIdx;
    }

    // The index of the first free node, or MAX_DPB_BUFS.
    method FindFree() returns (i: nat)
      requires Shape()
      ensures i <= MAX_DPB_BUFS
      ensures i < MAX_DPB_BUFS ==> infos[i].picBuf == null
      ensures forall j :: 0 <= j < i ==> infos[j].picBuf != null
    {
      i := 0;
      while i < MAX_DPB_BUFS
        invariant i <= MAX_DPB_BUFS
        invariant forall j :: 0 <= j < i ==> infos[j].picBuf != null
      {
        if infos[i].picBuf == null {
          break;
        }
        i := i + 1;
      }
    }

    // Whether a node holds the picture and the picture is marked with this type.
    method FindPresent(pic: PicBuf, ref: int) returns (present: bool)
      requires Shape()
      ensures present == Present(pic, ref)
    {
      var i := 0;
      while i < MAX_DPB_BUFS
        invariant 0 <= i <= MAX_DPB_BUFS
        invariant forall j :: 0 <= j < i ==> infos[j].picBuf != pic || pic.usedAsRef != ref
      {
        if infos[i].picBuf == pic && infos[i].picBuf.usedAsRef == ref {
          return true;
        }
        i := i + 1;
      }
      return false;
    }

    // Add a field at the head of a list, in the first free node.
    method InsertRefField(pic: PicBuf, ref: int, frameNum: int, longTermFrameIdx: int)
      returns (ret: int, ghost node: DpbInfo?)
      requires Valid()
      modifies `short, `shortHead, `long, `longHead, Nodes(infos)
      modifies pic`usedAsRef, pic`frameNum, pic`longTermFrameIdx
      ensures Valid()
      ensures ret == if old(Present(pic, ref)) || old(|short| + |long|) == MAX_DPB_BUFS then -1 else 0
      ensures ret != 0 ==> node == null && unchanged(`short, `shortHead, `long, `longHead)
      ensures ret != 0 ==> unchanged(Nodes(infos)) && unchanged(pic)
      ensures ret == 0 ==>
                && node != null && node in Nodes(infos) && old(node.picBuf) == null && node.picBuf == pic
                && (if ref == SHORT_TERM_REF then short == [node] + old(short) && unchanged(`long, `longHead)
                    else long == [node] + old(long) && unchanged(`short, `shortHead))
      ensures ret == 0 ==> forall n :: n in Nodes(infos) && n != node ==> n.picBuf == old(n.picBuf)
      ensures ret == 0 ==>
                && pic.usedAsRef == ref && pic.frameNum == frameNum
                && pic.longTermFrameIdx == if ref == SHORT_TERM_REF then -1 else longTermFrameIdx
    {
      Capacity();
      node := null;
      var present := FindPresent(pic, ref);
      if present {
        return -1, null;
      }
      var i := FindFree();
      if i == MAX_DPB_BUFS {
        return -1, null;
      }
      node := infos[i];
      LinkAtHead(infos[i], pic, ref, frameNum, longTermFrameIdx);
      ret := 0;
    }

    // Add the two fields of a frame, the bottom field being the one with the buffer id
    // of the top field. When the second does not fit, or is there
    // already, the first stays inserted.
    method InsertRefFrame(pic: PicBuf, ref: int, frameNum: int, longTermFrameIdx: int)
      returns (ret: int, ghost top: DpbInfo?, ghost bottom: DpbInfo?)
      requires Valid() && 0 <= pic.bufId < MAX_DPB_BUFS
      modifies `short, `shortHead, `long, `longHead, Nodes(infos)
      modifies pic`usedAsRef, pic`frameNum, pic`longTermFrameIdx
      modifies (bottomPics[pic.bufId] as PicBuf)`usedAsRef, (bottomPics[pic.bufId] as PicBuf)`frameNum
      modifies (bottomPics[pic.bufId] as PicBuf)`longTermFrameIdx
      ensures Valid()
      ensures top != null <==> !old(Present(pic, ref)) && old(|short| + |long|) < MAX_DPB_BUFS
      ensures bottom != null <==>
                && top != null && bottomPics[pic.bufId] != pic
                && !old(Present(bottomPics[pic.bufId], ref)) && old(|short| + |long|) + 1 < MAX_DPB_BUFS
      ensures ret == if bottom != null then 0 else -1
      ensures var added := if bottom != null then [bottom, top] else if top != null then [top] else [];
              if ref == SHORT_TERM_REF then short == added + old(short) && unchanged(`long, `longHead)
              else long == added + old(long) && unchanged(`short, `shortHead)
      ensures forall n :: n in Nodes(infos) && n != top && n != bottom ==> n.picBuf == old(n.picBuf)
      ensures top != null ==> top in Nodes(infos) && old(top.picBuf) == null
      ensures bottom != null ==> bottom in Nodes(infos) && old(bottom.picBuf) == null
      ensures top != null ==>
                && top.picBuf == pic && pic.frameNum == frameNum && pic.usedAsRef == ref
                && pic.longTermFrameIdx == if ref == SHORT_TERM_REF then -1 else longTermFrameIdx
      ensures bottom != null ==>
                && bottom.picBuf == bottomPics[pic.bufId] && bottom.picBuf.frameNum == frameNum
                && bottom.picBuf.usedAsRef == ref
                && bottom.picBuf.longTermFrameIdx == if ref == SHORT_TERM_REF then -1 else longTermFrameIdx
      ensures top == null ==> unchanged(pic)
      ensures bottom == null && bottomPics[pic.bufId] != pic ==> unchanged(bottomPics[pic.bufId])
    {
      hide OnArray, Covered, Live, Chained, Distinct;
      Capacity();
      bottom := null;
      ret, top := InsertRefField(pic, ref, frameNum, longTermFrameIdx);
      if ret != 0 {
        return;
      }
      ret, bottom := InsertRefField(bottomPics[pic.bufId], ref, frameNum, longTermFrameIdx);
    }

    // The short-term half of the frame count.
    method CountShortFrames(cur: int, max: int) returns (count: int)
      requires Valid()
      modifies Nodes(short)`picBuf
      ensures Valid() && Fields(long) == old(Fields(long))
      ensures Permutation(Fields(short), old(Fields(short)))
      ensures Fields(short) == PairPass(FrameNumKey, TOP_FIELD, Exchanged(ByFrameNum(cur, max), old(Fields(short))), 0)
      ensures old(FrameNumsIn(Fields(short), max)) ==> count == |old(Frames(FrameNumKey, Fields(short)))|
    {
      hide Views, Pics, Permutation, Sorted, FrameNumsIn, Frames, Keys, Runs, Distinct, FrameNumOrdered, Complementary,
           NewestFirst, PairPass, Exchanged;
      ValidLive();
      ghost var start := Fields(short);
      count := 0;
      if shortHead != null {
        var _ := SortShortByFrameNum(cur, TOP_FIELD, max);
        ValidLive();
        ghost var sorted := Fields(short);
        count := CountChanges(shortHead, short);
        assert Fields(short) == sorted;
      } else {
        RunsOfNone(start);
        NothingToSort(start, cur, max);
      }
      if FrameNumsIn(start, max) {
        CountShortFacts(start, Fields(short), cur, max);
      }
    }

    // The long-term half. What it returns is a function of the list before the
    // call; it is off by the frames it splits and those it merges.
    method CountLongFrames() returns (count: int)
      requires Valid()
      modifies Nodes(long)`picBuf
      ensures Valid() && Fields(short) == old(Fields(short))
      ensures Fields(long) == LongSort(old(Fields(long)), TOP_FIELD)
      ensures Permutation(Fields(long), old(Fields(long))) && Sorted(ByLongIdx, Fields(long))
      ensures count == LongCount(old(Fields(long)))
      ensures count + |Merges(Fields(long))| == |old(Frames(LongIdxKey, Fields(long)))| + |Splits(Fields(long))|
      ensures old(Complementary(LongIdxKey, Fields(long))) ==>
                count + |old(MergedFrames(Fields(long)))|
                == |old(Frames(LongIdxKey, Fields(long)))| + |old(SplitFrames(Fields(long)))|
      ensures old(IdxFixesFrameNum(Fields(long))) ==>
                && count <= |old(Frames(LongIdxKey, Fields(long)))|
                && (count == |old(Frames(LongIdxKey, Fields(long)))| <==> old(NeighboursDiffer(Fields(long))))
    {
      hide Views, Pics, Permutation, Sorted, IdxFixesFrameNum, NeighboursDiffer, Frames, Keys, Runs, Distinct,
           Complementary, LongSort, Splits, Merges, SplitFrames, MergedFrames;
      ValidLive();
      ghost var start := Fields(long);
      count := 0;
      if longHead != null {
        var _ := SortLongByFrameIdx(TOP_FIELD);
        ValidLive();
        ghost var sorted := Fields(long);
        count := CountChanges(longHead, long);
        assert Fields(long) == sorted;
      } else {
        NothingToCount(start);
      }
      LongCountCases(start);
    }

    // Count the frames, complementary field pairs and unpaired fields on both lists.
    method CountRefFrames(cur: int, max: int) returns (count: int)
      requires Valid()
      modifies Nodes(short)`picBuf, Nodes(long)`picBuf
      ensures Valid()
      ensures Permutation(Fields(short), old(Fields(short))) && Permutation(Fields(long), old(Fields(long)))
      ensures Fields(short) == PairPass(FrameNumKey, TOP_FIELD, Exchanged(ByFrameNum(cur, max), old(Fields(short))), 0)
      ensures Fields(long) == LongSort(old(Fields(long)), TOP_FIELD)
      ensures old(FrameNumsIn(Fields(short), max)) ==>
                count == |old(Frames(FrameNumKey, Fields(short)))| + LongCount(old(Fields(long)))
      ensures old(FrameNumsIn(Fields(short), max)) && old(Complementary(LongIdxKey, Fields(long))) ==>
                var frames := |old(Frames(FrameNumKey, Fields(short)))| + |old(Frames(LongIdxKey, Fields(long)))|;
                && count + |old(MergedFrames(Fields(long)))| == frames + |old(SplitFrames(Fields(long)))|
                && (count == frames <==> |old(SplitFrames(Fields(long)))| == |old(MergedFrames(Fields(long)))|)
      ensures old(FrameNumsIn(Fields(short), max)) && old(IdxFixesFrameNum(Fields(long))) ==>
                var frames := |old(Frames(FrameNumKey, Fields(short)))| + |old(Frames(LongIdxKey, Fields(long)))|;
                && count <= frames
                && (count == frames <==> old(NeighboursDiffer(Fields(long))))
    {
      hide Pics, Views, Fields, Valid, Permutation, FrameNumsIn, IdxFixesFrameNum, NeighboursDiffer, Frames,
           Complementary, LongSort, LongCount, SplitFrames, MergedFrames,
           Sorted, Runs, Keys, PairPass, Exchanged;
      ValidLive();
      var numShortTerm := CountShortFrames(cur, max);
      ValidLive();
      var numLongTerm := CountLongFrames();
      count := numShortTerm + numLongTerm;
    }
  }

  // Of the pictures of start, which were marked as in was, the oldest are now
  // marked unused and the others as before.
  ghost predicate WindowMarked(start: seq<Field>, was: map<PicBuf, int>, cur: int, max: int)
    reads PicsIn(start)`usedAsRef
  {
    forall i :: 0 <= i < |start| ==>
      && start[i].pic in was
      && start[i].pic.usedAsRef == if Oldest(start, start[i], cur, max) then UNUSED_FOR_REF else was[start[i].pic]
  }

  // s is start sorted, with pictures ps, and was cut at kept.
  lemma WindowMarks(start: seq<Field>, s: seq<Field>, ps: seq<PicBuf>, was: map<PicBuf, int>, kept: nat,
                    cur: int, max: int)
    requires |s| == |ps| && kept <= |s| && Permutation(s, start) && Marked(ps, was, ps[kept..])
    requires forall k :: 0 <= k < |s| ==> s[k] == View(ps[k])
    requires forall k :: 0 <= k < |s| ==> (k >= kept <==> Oldest(start, s[k], cur, max))
    ensures WindowMarked(start, was, cur, max)
  {
    hide Oldest;
    forall i | 0 <= i < |start|
      ensures start[i].pic in was
      ensures start[i].pic.usedAsRef == if Oldest(start, start[i], cur, max) then UNUSED_FOR_REF else was[start[i].pic]
    {
      PermutationMember(start, s, i);
      var k :| 0 <= k < |s| && s[k] == start[i];
      assert ps[k].usedAsRef == if ps[k] in ps[kept..] then UNUSED_FOR_REF else was[ps[k]];
      if k >= kept {
        assert ps[kept..][k - kept] == ps[k];
      } else {
        forall j | 0 <= j < |ps| - kept ensures ps[kept..][j] != ps[k] {
          assert Oldest(start, s[kept + j], cur, max) && !Oldest(start, s[k], cur, max);
        }
      }
    }
  }

  // Of the fields of start exactly the oldest, by frame_num modulo max, are not on
  // the list any more; they are marked unused and the others as before.
  ghost predicate EldestGone(start: seq<Field>, now: seq<Field>, was: map<PicBuf, int>, cur: int, max: int)
    requires max > 0
    reads PicsIn(start)`usedAsRef
  {
    forall i :: 0 <= i < |start| ==>
      && start[i].pic in was
      && (start[i] in now <==> !Eldest(start, start[i], cur, max))
      && start[i].pic.usedAsRef == if Eldest(start, start[i], cur, max) then UNUSED_FOR_REF else was[start[i].pic]
  }

  lemma WindowByAge(start: seq<Field>, now: seq<Field>, was: map<PicBuf, int>, cur: int, max: int)
    requires FrameNumsIn(start, max) && 0 <= cur < max
    requires NewerOf(start, now, cur, max) && WindowMarked(start, was, cur, max)
    ensures EldestGone(start, now, was, cur, max)
  {
    hide Oldest, Eldest;
    forall i | 0 <= i < |start|
      ensures Oldest(start, start[i], cur, max) <==> Eldest(start, start[i], cur, max)
    {
      OldestIsEldest(start, start[i], cur, max);
    }
  }

  lemma NothingToCount(s: seq<Field>)
    ensures s == [] ==> LongSort(s, TOP_FIELD) == s && LongCount(s) == 0 && Sorted(ByLongIdx, s)
    ensures Permutation(s, s)
  {
  }

  // All that is known of the long-term count.
  lemma LongCountCases(s: seq<Field>)
    ensures var sorted := LongSort(s, TOP_FIELD);
            LongCount(s) + |Merges(sorted)| == |Frames(LongIdxKey, s)| + |Splits(sorted)|
    ensures Complementary(LongIdxKey, s) ==>
              LongCount(s) + |MergedFrames(s)| == |Frames(LongIdxKey, s)| + |SplitFrames(s)|
    ensures IdxFixesFrameNum(s) ==>
              && LongCount(s) <= |Frames(LongIdxKey, s)|
              && (LongCount(s) == |Frames(LongIdxKey, s)| <==> NeighboursDiffer(s))
  {
    hide *;
    LongCountExact(s);
    if Complementary(LongIdxKey, s) {
      PairedCountExact(s);
    }
    if IdxFixesFrameNum(s) {
      FixedCountExact(s);
    }
  }

  lemma NothingToSort(s: seq<Field>, cur: int, max: int)
    ensures s == [] ==> PairPass(FrameNumKey, TOP_FIELD, Exchanged(ByFrameNum(cur, max), s), 0) == s
  {
  }

  lemma RunsOfNone(s: seq<Field>)
    ensures s == [] ==> Runs(Keys(FrameNumKey, s)) == 0
    ensures s == [] ==> Sorted(ByLongIdx, s) && forall cur, max :: Sorted(ByFrameNum(cur, max), s)
    ensures Permutation(s, s)
  {
  }

  lemma CountShortFacts(start: seq<Field>, s: seq<Field>, cur: int, max: int)
    requires Permutation(s, start) && FrameNumsIn(start, max) && Sorted(ByFrameNum(cur, max), s)
    ensures Runs(Keys(FrameNumKey, s)) == |Frames(FrameNumKey, start)|
  {
    FrameNumsPermute(start, s, max);
    CountByFrameNum(s, cur, max);
    FramesPermute(FrameNumKey, s, start);
  }

  function OtherList(ref: int): int {
    if ref == SHORT_TERM_REF then LONG_TERM_REF else SHORT_TERM_REF
  }
}
