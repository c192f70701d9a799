// Every run of the manager keeps the shape of its lists, and does to the fields they
// show what a machine on two sequences does.
module DpbTraces {
  import opened Pictures
  import opened FieldOrder
  import opened ExchangeSort
  import opened Pairing
  import opened Alternation
  import opened Marking
  import opened LongTermCount
  import opened DpbLists
  import opened DpbManager

  // One call, with its arguments.
  datatype Call =
    | Init
    | SortShortByFrameNum(cur: int, first: int, max: int)
    | SortShortByPocL0(cur: int, first: int)
    | SortShortByPocL1(cur: int, first: int)
    | SortLongByFrameIdx(first: int)
    | AlternateRefFields(ref: int, first: int)
    | InsertRefField(pic: PicBuf, ref: int, frameNum: int, idx: int)
    | InsertRefFrame(pic: PicBuf, ref: int, frameNum: int, idx: int)
    | CountRefFrames(cur: int, max: int)
    | DeleteRefFrame(ref: int)
    | DeleteLongAboveMaxIdx(max: int)
    | DeleteShortRefFrame(cur: int, max: int)
    | DeleteAllRefFrames

  // The fields on the two lists.
  datatype Lists = Lists(short: seq<Field>, long: seq<Field>) {
    function On(ref: int): seq<Field> { if ref == SHORT_TERM_REF then short else long }

    function With(ref: int, s: seq<Field>): Lists {
      if ref == SHORT_TERM_REF then this.(short := s) else this.(long := s)
    }

    // The short-term list in frame_num order, as the count and the sliding window leave it.
    function ShortSorted(cur: int, max: int): seq<Field> {
      PairPass(FrameNumKey, TOP_FIELD, Exchanged(ByFrameNum(cur, max), short), 0)
    }

    // f is new at the head of a list; where its picture is listed already, its new
    // frame_num and index show there as well.
    function Adding(ref: int, f: Field): Lists {
      if ref == SHORT_TERM_REF then Lists([f] + Renewed(short, f), Renewed(long, f))
      else Lists(Renewed(short, f), [f] + Renewed(long, f))
    }
  }

  function Renewed(s: seq<Field>, f: Field): (r: seq<Field>)
    ensures |r| == |s|
  {
    seq(|s|, i requires 0 <= i < |s| => if s[i].pic == f.pic then f else s[i])
  }

  // One field with this frame_num and index was added.
  predicate Added(a: Lists, b: Lists, pic: PicBuf, ref: int, frameNum: int, idx: int) {
    && b.On(ref) != []
    && var f := b.On(ref)[0];
       && f.pic == pic && f.frameNum == frameNum && f.longIdx == (if ref == SHORT_TERM_REF then -1 else idx)
       && b == a.Adding(ref, f)
  }

  // The two fields of a frame were added, the second in front of the first.
  predicate AddedTwo(a: Lists, b: Lists, pic: PicBuf, ref: int, frameNum: int, idx: int) {
    && |b.On(ref)| >= 2
    && var mid := a.Adding(ref, b.On(ref)[1]);
       && Added(a, mid, pic, ref, frameNum, idx)
       && b.On(ref)[0].pic != pic && Added(mid, b, b.On(ref)[0].pic, ref, frameNum, idx)
  }

  // Why an insertion may change nothing: no node is free, or the picture is listed.
  predicate Refusable(a: Lists, pic: PicBuf) {
    |a.short| + |a.long| == MAX_DPB_BUFS || pic in PicsIn(a.short) || pic in PicsIn(a.long)
  }

  // What each call does to the fields shown. An insertion can be refused.
  predicate Effect(call: Call, a: Lists, b: Lists) {
    match call
    case Init => b == Lists([], [])
    case SortShortByFrameNum(cur, first, max) =>
      b == a.(short := PairPass(FrameNumKey, first, Exchanged(ByFrameNum(cur, max), a.short), 0))
    case SortShortByPocL0(cur, first) =>
      b == a.(short := PairPass(FrameNumKey, first, Exchanged(ByPocL0(cur), a.short), 0))
    case SortShortByPocL1(cur, first) =>
      b == a.(short := PairPass(FrameNumKey, first, Exchanged(ByPocL1(cur), a.short), 0))
    case SortLongByFrameIdx(first) => b == a.(long := LongSort(a.long, first))
    case AlternateRefFields(ref, first) => b == a.With(ref, Alternate(a.On(ref), first))
    case InsertRefField(pic, ref, frameNum, idx) =>
      (b == a && Refusable(a, pic)) || Added(a, b, pic, ref, frameNum, idx)
    case InsertRefFrame(pic, ref, frameNum, idx) =>
      b == a || Added(a, b, pic, ref, frameNum, idx) || AddedTwo(a, b, pic, ref, frameNum, idx)
    case CountRefFrames(cur, max) => b == Lists(a.ShortSorted(cur, max), LongSort(a.long, TOP_FIELD))
    case DeleteRefFrame(ref) => b == a.With(ref, a.On(ref)[..KeepLen(a.On(ref))])
    case DeleteLongAboveMaxIdx(max) => b == a.(long := Trim(a.long, max))
    case DeleteShortRefFrame(cur, max) =>
      b == a.(short := a.ShortSorted(cur, max)[..KeepLen(a.ShortSorted(cur, max))])
    case DeleteAllRefFrames => b == Lists([], [])
  }

  ghost function Shown(mgr: DpbMgr): Lists
    requires Live(mgr.short) && Live(mgr.long)
    reads mgr, Nodes(mgr.short)`picBuf, Nodes(mgr.long)`picBuf
    reads PicSet(Pics(mgr.short))`frameNum, PicSet(Pics(mgr.short))`absPoc
    reads PicSet(Pics(mgr.short))`fieldType, PicSet(Pics(mgr.short))`longTermFrameIdx
    reads PicSet(Pics(mgr.long))`frameNum, PicSet(Pics(mgr.long))`absPoc
    reads PicSet(Pics(mgr.long))`fieldType, PicSet(Pics(mgr.long))`longTermFrameIdx
  {
    Lists(Fields(mgr.short), Fields(mgr.long))
  }

  // All pictures on the lists come from pool.
  ghost predicate Pooled(mgr: DpbMgr, pool: set<PicBuf>)
    reads mgr, Nodes(mgr.infos), Nodes(mgr.short), Nodes(mgr.long)
  {
    mgr.Valid() && mgr.Listed() <= pool && PicSet(mgr.topPics + mgr.bottomPics) <= pool
  }

  lemma PooledFields(mgr: DpbMgr, pool: set<PicBuf>)
    requires mgr.Valid() && PicSet(mgr.topPics + mgr.bottomPics) <= pool
    ensures Pooled(mgr, pool) <==> PicsIn(Fields(mgr.short)) <= pool && PicsIn(Fields(mgr.long)) <= pool
  {
    hide Views, Pics, Fields, PicSet;
    PicsInFields(mgr.short);
    PicsInFields(mgr.long);
  }

  // The same, node by node.
  ghost predicate PooledNodes(mgr: DpbMgr, pool: set<PicBuf>)
    reads Nodes(mgr.infos)`picBuf
  {
    forall n :: n in Nodes(mgr.infos) && n.picBuf != null ==> n.picBuf in pool
  }

  lemma PooledByNode(mgr: DpbMgr, pool: set<PicBuf>)
    requires mgr.Valid() && PicSet(mgr.topPics + mgr.bottomPics) <= pool
    ensures Pooled(mgr, pool) <==> PooledNodes(mgr, pool)
  {
    hide Views, Pics, Fields, Distinct, Chained;
    PicsInFields(mgr.short);
    PicsInFields(mgr.long);
    if PooledNodes(mgr, pool) {
      forall p | p in mgr.Listed() ensures p in pool {
        if p in PicSet(Pics(mgr.short)) {
          var k :| 0 <= k < |mgr.short| && Pics(mgr.short)[k] == p;
          assert mgr.short[k] in Nodes(mgr.infos);
        } else {
          var k :| 0 <= k < |mgr.long| && Pics(mgr.long)[k] == p;
          assert mgr.long[k] in Nodes(mgr.infos);
        }
      }
    }
    if Pooled(mgr, pool) {
      forall n | n in Nodes(mgr.infos) && n.picBuf != null ensures n.picBuf in pool {
        if n in Nodes(mgr.short) {
          var k :| 0 <= k < |mgr.short| && mgr.short[k] == n;
          assert Pics(mgr.short)[k] == n.picBuf;
        } else {
          var k :| 0 <= k < |mgr.long| && mgr.long[k] == n;
          assert Pics(mgr.long)[k] == n.picBuf;
        }
      }
    }
  }

  lemma PooledEmpty(mgr: DpbMgr, pool: set<PicBuf>)
    requires mgr.Valid() && PicSet(mgr.topPics + mgr.bottomPics) <= pool
    requires mgr.short == [] && mgr.long == []
    ensures Pooled(mgr, pool)
  {
  }

  lemma {:induction false} DropLeadingPics(s: seq<Field>, max: int)
    ensures PicsIn(DropLeading(s, max)) <= PicsIn(s)
  {
    if s != [] && s[0].longIdx > max {
      DropLeadingPics(s[1..], max);
    }
  }

  lemma {:induction false} TrimRestPics(s: seq<Field>, max: int)
    requires s != []
    ensures PicsIn(TrimRest(s, max)) <= PicsIn(s)
    decreases |s|
  {
    if |s| > 1 {
      var from := if s[1].longIdx <= max then 1 else 2;
      if from < |s| {
        TrimRestPics(s[from..], max);
        assert PicsIn(s[from..]) <= PicsIn(s);
        assert TrimRest(s, max) == [s[0]] + TrimRest(s[from..], max);
      }
    }
  }

  lemma TrimPics(s: seq<Field>, max: int)
    ensures PicsIn(Trim(s, max)) <= PicsIn(s)
  {
    DropLeadingPics(s, max);
    if DropLeading(s, max) != [] {
      TrimRestPics(DropLeading(s, max), max);
    }
  }

  // Nodes that showed s, and keep their pictures, show one changed picture where it was.
  lemma ShowsOne(list: seq<DpbInfo>, s: seq<Field>, pic: PicBuf)
    requires Live(list) && |s| == |list| && forall k :: 0 <= k < |list| ==> s[k].pic == list[k].picBuf
    requires forall k :: 0 <= k < |list| ==> s[k].pic == pic || s[k] == View(s[k].pic)
    ensures Fields(list) == Renewed(s, View(pic))
  {
    hide Views, Pics;
    forall k | 0 <= k < |list| ensures Fields(list)[k] == Renewed(s, View(pic))[k] {
      assert Fields(list)[k] == View(list[k].picBuf);
    }
  }

  lemma ShowsTwo(list: seq<DpbInfo>, s: seq<Field>, pic: PicBuf, other: PicBuf)
    requires Live(list) && |s| == |list| && forall k :: 0 <= k < |list| ==> s[k].pic == list[k].picBuf
    requires forall k :: 0 <= k < |list| ==> s[k].pic == pic || s[k].pic == other || s[k] == View(s[k].pic)
    requires other != pic
    ensures Fields(list) == Renewed(Renewed(s, View(pic)), View(other))
  {
    hide Views, Pics;
    forall k | 0 <= k < |list| ensures Fields(list)[k] == Renewed(Renewed(s, View(pic)), View(other))[k] {
      assert Fields(list)[k] == View(list[k].picBuf);
    }
  }

  lemma PresentListed(mgr: DpbMgr, pic: PicBuf, ref: int)
    requires mgr.Valid()
    ensures mgr.Present(pic, ref) || |mgr.short| + |mgr.long| >= MAX_DPB_BUFS ==> Refusable(Shown(mgr), pic)
  {
    hide Pics, Views, Chained, Distinct;
    mgr.Capacity();
    if mgr.Present(pic, ref) {
      var i :| 0 <= i < |mgr.infos| && mgr.infos[i].picBuf == pic;
      PicsInFields(mgr.short);
      PicsInFields(mgr.long);
      if mgr.infos[i] in Nodes(mgr.short) {
        var k :| 0 <= k < |mgr.short| && mgr.short[k] == mgr.infos[i];
        assert Pics(mgr.short)[k] == pic;
      } else {
        var k :| 0 <= k < |mgr.long| && mgr.long[k] == mgr.infos[i];
        assert Pics(mgr.long)[k] == pic;
      }
    }
  }

  // An inserted picture is the only new one.
  method StepInsert(mgr: DpbMgr, pic: PicBuf, ref: int, frameNum: int, idx: int, ghost pool: set<PicBuf>)
    returns (ret: int)
    requires Pooled(mgr, pool) && pic in pool
    modifies mgr, Nodes(mgr.infos), pic
    ensures Pooled(mgr, pool)
    ensures Effect(InsertRefField(pic, ref, frameNum, idx), old(Shown(mgr)), Shown(mgr))
  {
    hide Refusable, Chained, OnArray, Covered, Nodes, PicSet, Pics, Views, Fields, DpbMgr.Valid, Renewed, Added;
    mgr.ValidLive();
    PooledByNode(mgr, pool);
    ghost var short, long, a := mgr.short, mgr.long, Shown(mgr);
    PresentListed(mgr, pic, ref);
    ghost var node;
    ret, node := mgr.InsertRefField(pic, ref, frameNum, idx);
    mgr.ValidLive();
    PooledByNode(mgr, pool);
    ShowsOne(short, a.short, pic);
    ShowsOne(long, a.long, pic);
    if ret == 0 {
      HeadShown(node, if ref == SHORT_TERM_REF then short else long, mgr.List(ref));
      FieldAdded(a, Shown(mgr), View(pic), ref, idx);
    }
  }

  lemma HeadShown(node: DpbInfo, list: seq<DpbInfo>, whole: seq<DpbInfo>)
    requires node.picBuf != null && Live(list) && whole == [node] + list
    ensures Live(whole) && Fields(whole) == [View(node.picBuf)] + Fields(list)
  {
    hide Views, Pics;
  }

  lemma BottomPooled(mgr: DpbMgr, pic: PicBuf, pool: set<PicBuf>)
    requires Pooled(mgr, pool) && 0 <= pic.bufId < MAX_DPB_BUFS
    ensures pic.bufId < |mgr.bottomPics| && mgr.bottomPics[pic.bufId] in pool
  {
    var all := mgr.topPics + mgr.bottomPics;
    assert all[MAX_DPB_BUFS + pic.bufId] == mgr.bottomPics[pic.bufId];
  }

  // What inserting a frame does to the fields shown.
  method FrameShown(mgr: DpbMgr, pic: PicBuf, ref: int, frameNum: int, idx: int, ghost second: PicBuf)
    requires mgr.Valid() && 0 <= pic.bufId < MAX_DPB_BUFS && second == mgr.bottomPics[pic.bufId]
    modifies mgr, Nodes(mgr.infos), pic, second
    ensures mgr.Valid()
    ensures forall n :: n in Nodes(mgr.infos) ==> n.picBuf == old(n.picBuf) || n.picBuf == pic || n.picBuf == second
    ensures Effect(InsertRefFrame(pic, ref, frameNum, idx), old(Shown(mgr)), Shown(mgr))
    ensures Shown(mgr) == old(Shown(mgr)) ==> Refusable(old(Shown(mgr)), pic)
  {
    hide Refusable, Chained, OnArray, Covered, Nodes, PicSet, Pics, Views, Fields, Renewed, Added, AddedTwo,
         DpbMgr.Valid;
    mgr.ValidLive();
    ghost var short, long, a := mgr.short, mgr.long, Shown(mgr);
    PresentListed(mgr, pic, ref);
    var ret;
    ghost var top, bottom;
    ret, top, bottom := mgr.InsertRefFrame(pic, ref, frameNum, idx);
    mgr.ValidLive();
    if bottom != null {
      TwoShown(a, short, long, top, bottom, if ref == SHORT_TERM_REF then short else long, mgr.List(ref));
      FrameAdded(a, Shown(mgr), View(pic), View(second), ref, idx);
    } else if top != null {
      OneShown(a, short, long, top, if ref == SHORT_TERM_REF then short else long, mgr.List(ref));
      FieldAdded(a, Shown(mgr), View(pic), ref, idx);
    }
  }

  // The nodes of both lists keep their pictures, and one of the lists gets a head.
  lemma OneShown(a: Lists, short: seq<DpbInfo>, long: seq<DpbInfo>, top: DpbInfo, list: seq<DpbInfo>,
      whole: seq<DpbInfo>)
    requires Live(short) && Live(long) && |a.short| == |short| && |a.long| == |long| && top.picBuf != null
    requires forall k :: 0 <= k < |short| ==> a.short[k].pic == short[k].picBuf
    requires forall k :: 0 <= k < |long| ==> a.long[k].pic == long[k].picBuf
    requires forall f :: f in a.short + a.long && f.pic != top.picBuf ==> f == View(f.pic)
    requires list in {short, long} && whole == [top] + list
    ensures Fields(short) == Renewed(a.short, View(top.picBuf)) && Fields(long) == Renewed(a.long, View(top.picBuf))
    ensures Live(whole) && Fields(whole) == [View(top.picBuf)] + Fields(list)
  {
    hide Fields, Renewed;
    ShowsOne(short, a.short, top.picBuf);
    ShowsOne(long, a.long, top.picBuf);
    HeadShown(top, list, whole);
  }

  // One of the lists gets two nodes.
  lemma TwoShown(a: Lists, short: seq<DpbInfo>, long: seq<DpbInfo>, top: DpbInfo, bottom: DpbInfo, list: seq<DpbInfo>,
      whole: seq<DpbInfo>)
    requires Live(short) && Live(long) && |a.short| == |short| && |a.long| == |long|
    requires top.picBuf != null && bottom.picBuf != null && top.picBuf != bottom.picBuf
    requires forall k :: 0 <= k < |short| ==> a.short[k].pic == short[k].picBuf
    requires forall k :: 0 <= k < |long| ==> a.long[k].pic == long[k].picBuf
    requires forall f :: f in a.short + a.long && f.pic != top.picBuf && f.pic != bottom.picBuf ==> f == View(f.pic)
    requires list in {short, long} && whole == [bottom, top] + list
    ensures Fields(short) == Renewed(Renewed(a.short, View(top.picBuf)), View(bottom.picBuf))
    ensures Fields(long) == Renewed(Renewed(a.long, View(top.picBuf)), View(bottom.picBuf))
    ensures Live(whole) && Fields(whole) == [View(bottom.picBuf)] + ([View(top.picBuf)] + Fields(list))
  {
    hide Fields, Renewed;
    ShowsTwo(short, a.short, top.picBuf, bottom.picBuf);
    ShowsTwo(long, a.long, top.picBuf, bottom.picBuf);
    HeadShown(top, list, [top] + list);
    HeadShown(bottom, [top] + list, whole);
  }

  method StepInsertFrame(mgr: DpbMgr, pic: PicBuf, ref: int, frameNum: int, idx: int, ghost pool: set<PicBuf>)
    requires Pooled(mgr, pool) && pic in pool && 0 <= pic.bufId < MAX_DPB_BUFS
    modifies mgr, Nodes(mgr.infos), pool
    ensures Pooled(mgr, pool)
    ensures Effect(InsertRefFrame(pic, ref, frameNum, idx), old(Shown(mgr)), Shown(mgr))
    ensures Shown(mgr) == old(Shown(mgr)) ==> Refusable(old(Shown(mgr)), pic)
  {
    hide Refusable, Live, Chained, OnArray, Covered, Nodes, PicSet, Pics, Views, Shown, Effect;
    PooledByNode(mgr, pool);
    BottomPooled(mgr, pic, pool);
    FrameShown(mgr, pic, ref, frameNum, idx, mgr.bottomPics[pic.bufId]);
    PooledByNode(mgr, pool);
  }

  lemma FieldAdded(a: Lists, b: Lists, f: Field, ref: int, idx: int)
    requires b == if ref == SHORT_TERM_REF then Lists([f] + Renewed(a.short, f), Renewed(a.long, f))
                  else Lists(Renewed(a.short, f), [f] + Renewed(a.long, f))
    requires f.longIdx == if ref == SHORT_TERM_REF then -1 else idx
    ensures Effect(InsertRefField(f.pic, ref, f.frameNum, idx), a, b)
    ensures Effect(InsertRefFrame(f.pic, ref, f.frameNum, idx), a, b) && a != b
  {
  }

  lemma FrameAdded(a: Lists, b: Lists, f: Field, g: Field, ref: int, idx: int)
    requires var short, long := Renewed(Renewed(a.short, f), g), Renewed(Renewed(a.long, f), g);
             b == if ref == SHORT_TERM_REF then Lists([g] + ([f] + short), long) else Lists(short, [g] + ([f] + long))
    requires f.pic != g.pic && f.frameNum == g.frameNum && f.longIdx == g.longIdx
    requires f.longIdx == if ref == SHORT_TERM_REF then -1 else idx
    ensures Effect(InsertRefFrame(f.pic, ref, f.frameNum, idx), a, b) && a != b
  {
    assert Renewed([f] + Renewed(a.short, f), g) == [f] + Renewed(Renewed(a.short, f), g);
    assert Renewed([f] + Renewed(a.long, f), g) == [f] + Renewed(Renewed(a.long, f), g);
    assert b == a.Adding(ref, f).Adding(ref, g);
    assert b.On(ref)[0] == g && b.On(ref)[1] == f;
  }

  // One call. A frame is inserted only with a buffer id the array has.
  method Step(mgr: DpbMgr, call: Call, ghost pool: set<PicBuf>)
    requires Pooled(mgr, pool)
    requires call.InsertRefField? || call.InsertRefFrame? ==> call.pic in pool
    modifies mgr, Nodes(mgr.infos), pool
    ensures Pooled(mgr, pool)
    ensures call.InsertRefFrame? && Shown(mgr) == old(Shown(mgr)) ==>
              Refusable(old(Shown(mgr)), call.pic) || !(0 <= old(call.pic.bufId) < MAX_DPB_BUFS)
    ensures Effect(call, old(Shown(mgr)), Shown(mgr))
  {
    hide Views, Pics, Fields, PicSet, PicsIn, Permutation, Sorted, Live, Chained, OnArray, Covered,
         PairPass, Exchanged, LongSort, Alternate, KeepLen, Trim, Added, AddedTwo, Renewed, Refusable;
    mgr.ValidLive();
    PooledFields(mgr, pool);
    ghost var s, l := Fields(mgr.short), Fields(mgr.long);
    match call {
      case Init =>
        mgr.Init();
        PooledEmpty(mgr, pool);
      case SortShortByFrameNum(cur, first, max) =>
        var ret := mgr.SortShortByFrameNum(cur, first, max);
        PicsInPermute(Fields(mgr.short), s);
        PooledFields(mgr, pool);
      case SortShortByPocL0(cur, first) =>
        var ret;
        ghost var mid, k;
        ret, mid, k := mgr.SortShortByPocL0(cur, first);
        PicsInPermute(Fields(mgr.short), s);
        PooledFields(mgr, pool);
      case SortShortByPocL1(cur, first) =>
        var ret;
        ghost var mid, k;
        ret, mid, k := mgr.SortShortByPocL1(cur, first);
        PicsInPermute(Fields(mgr.short), s);
        PooledFields(mgr, pool);
      case SortLongByFrameIdx(first) =>
        var ret := mgr.SortLongByFrameIdx(first);
        PicsInPermute(Fields(mgr.long), l);
        PooledFields(mgr, pool);
      case AlternateRefFields(ref, first) =>
        var ret := mgr.AlternateRefFields(ref, first);
        AlternatePermutes(if ref == SHORT_TERM_REF then s else l, first);
        PicsInPermute(Fields(mgr.List(ref)), if ref == SHORT_TERM_REF then s else l);
        PooledFields(mgr, pool);
      case InsertRefField(pic, ref, frameNum, idx) =>
        var ret := StepInsert(mgr, pic, ref, frameNum, idx, pool);
      case InsertRefFrame(pic, ref, frameNum, idx) =>
        if 0 <= pic.bufId < MAX_DPB_BUFS {
          StepInsertFrame(mgr, pic, ref, frameNum, idx, pool);
        }
      case CountRefFrames(cur, max) =>
        var count := mgr.CountRefFrames(cur, max);
        PicsInPermute(Fields(mgr.short), s);
        PicsInPermute(Fields(mgr.long), l);
        PooledFields(mgr, pool);
      case DeleteRefFrame(ref) =>
        var ret;
        ghost var kept;
        ret, kept := mgr.DeleteRefFrame(ref);
        PrefixPics(if ref == SHORT_TERM_REF then s else l, kept);
        PooledFields(mgr, pool);
      case DeleteLongAboveMaxIdx(max) =>
        var ret;
        ghost var gone;
        ret, gone := mgr.DeleteLongAboveMaxIdx(max);
        TrimPics(l, max);
        PooledFields(mgr, pool);
      case DeleteShortRefFrame(cur, max) =>
        var ret;
        ghost var kept;
        ret, kept := mgr.DeleteShortRefFrame(cur, max);
        PooledFields(mgr, pool);
      case DeleteAllRefFrames =>
        var ret := mgr.DeleteAllRefFrames();
        PooledEmpty(mgr, pool);
    }
  }

  // Any run from a manager in shape, with the fields shown before each call and after
  // the last.
  method Run(mgr: DpbMgr, calls: seq<Call>, ghost pool: set<PicBuf>) returns (ghost trace: seq<Lists>)
    requires Pooled(mgr, pool)
    requires forall i :: 0 <= i < |calls| && (calls[i].InsertRefField? || calls[i].InsertRefFrame?) ==>
               calls[i].pic in pool
    modifies mgr, Nodes(mgr.infos), pool
    ensures mgr.Valid() && |mgr.short| + |mgr.long| <= MAX_DPB_BUFS
    ensures |trace| == |calls| + 1 && trace[0] == old(Shown(mgr)) && trace[|calls|] == Shown(mgr)
    ensures forall i :: 0 <= i < |calls| ==>
              Effect(calls[i], trace[i], trace[i + 1]) && |trace[i].short| + |trace[i].long| <= MAX_DPB_BUFS
  {
    hide Effect, Live, Chained, OnArray, Covered, DpbMgr.Valid, Pooled, Nodes, PicSet, Pics, Views, Fields, Shown;
    PooledShows(mgr, pool);
    trace := [Shown(mgr)];
    for i := 0 to |calls|
      invariant Pooled(mgr, pool) && mgr.Valid() && Live(mgr.short) && Live(mgr.long)
      invariant |mgr.short| + |mgr.long| <= MAX_DPB_BUFS
      invariant |trace| == i + 1 && trace[0] == old(Shown(mgr)) && trace[i] == Shown(mgr)
      invariant forall j :: 0 <= j < i ==> Effect(calls[j], trace[j], trace[j + 1])
      invariant forall j :: 0 <= j <= i ==> |trace[j].short| + |trace[j].long| <= MAX_DPB_BUFS
    {
      Step(mgr, calls[i], pool);
      PooledShows(mgr, pool);
      trace := trace + [Shown(mgr)];
    }
  }

  lemma PooledShows(mgr: DpbMgr, pool: set<PicBuf>)
    requires Pooled(mgr, pool)
    ensures mgr.Valid() && Live(mgr.short) && Live(mgr.long)
    ensures |Shown(mgr).short| == |mgr.short| && |Shown(mgr).long| == |mgr.long|
    ensures |mgr.short| + |mgr.long| <= MAX_DPB_BUFS == 64
  {
    mgr.Capacity();
  }
}
