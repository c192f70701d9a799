// Insertions that leave more, or less, on the lists than was meant.
module DpbInserts {
  import opened Pictures
  import opened DpbLists
  import opened DpbManager

  // ---- whole frames ----

  // The top field of frame k, with the buffer id that says so, brings the bottom field
  // of frame k with it: both get in, the bottom field first on the list, exactly when
  // neither is there with this type and two nodes are free.
  method InsertWholeFrame(mgr: DpbMgr, k: nat, ref: int, frameNum: int, longTermFrameIdx: int) returns (ret: int)
    requires mgr.Valid() && k < MAX_DPB_BUFS && mgr.topPics[k].bufId == k
    modifies mgr, Nodes(mgr.infos), mgr.topPics[k], mgr.bottomPics[k]
    ensures mgr.Valid()
    ensures ret == 0 <==>
            && !old(mgr.Present(mgr.topPics[k], ref)) && !old(mgr.Present(mgr.bottomPics[k], ref))
            && old(|mgr.short| + |mgr.long|) + 2 <= MAX_DPB_BUFS
    ensures ret == 0 ==>
              && |mgr.List(ref)| >= 2 && mgr.List(ref)[2..] == old(mgr.List(ref))
              && mgr.List(ref)[0].picBuf == mgr.bottomPics[k] && mgr.List(ref)[1].picBuf == mgr.topPics[k]
              && mgr.bottomPics[k].frameNum == mgr.topPics[k].frameNum == frameNum
              && mgr.bottomPics[k].usedAsRef == mgr.topPics[k].usedAsRef == ref
    ensures if ref == SHORT_TERM_REF then mgr.long == old(mgr.long) else mgr.short == old(mgr.short)
  {
    hide Live, Chained, OnArray, Covered, Distinct;
    TopIsNotBottom(mgr, k);
    ghost var top, bottom;
    ret, top, bottom := mgr.InsertRefFrame(mgr.topPics[k], ref, frameNum, longTermFrameIdx);
  }

  // From a new manager frame k gets in, whatever k is.
  method InsertFirstFrame(k: nat, frameNum: int) returns (mgr: DpbMgr, ret: int)
    requires k < MAX_DPB_BUFS
    ensures mgr.Valid() && fresh(mgr) && ret == 0
    ensures |mgr.short| == 2 && mgr.long == []
    ensures mgr.short[0].picBuf == mgr.bottomPics[k] && mgr.short[1].picBuf == mgr.topPics[k]
  {
    hide Live, Chained, OnArray, Covered, Distinct, NoSharing;
    mgr := new DpbMgr();
    TopIsNotBottom(mgr, k);
    mgr.topPics[k].bufId := k;
    ret := InsertWholeFrame(mgr, k, SHORT_TERM_REF, frameNum, -1);
  }

  // ---- frames that get in by half ----

  // With one node left, the top field of a frame is added, the bottom field is not,
  // and the call returns -1.
  method InsertFrameIntoLastNode(mgr: DpbMgr, pic: PicBuf, ref: int, frameNum: int, longTermFrameIdx: int,
                                 ghost bottom: PicBuf)
    returns (ret: int, ghost node: DpbInfo?)
    requires mgr.Valid() && 0 <= pic.bufId < MAX_DPB_BUFS && |mgr.short| + |mgr.long| == MAX_DPB_BUFS - 1
    requires !mgr.Present(pic, ref) && bottom == mgr.bottomPics[pic.bufId] && bottom != pic
    modifies mgr, Nodes(mgr.infos), pic, bottom
    ensures mgr.Valid() && ret == -1 && unchanged(bottom)
    ensures node != null && node.picBuf == pic && mgr.List(ref) == [node] + old(mgr.List(ref))
    ensures pic.usedAsRef == ref && pic.frameNum == frameNum
  {
    hide Live, Chained, OnArray, Covered, Distinct;
    ghost var other;
    ret, node, other := mgr.InsertRefFrame(pic, ref, frameNum, longTermFrameIdx);
  }

  // From a new manager: the bottom field is inserted, then the frame. The call
  // returns -1, although both fields are on the list.
  method InsertFrameAfterBottom(frameNum: int) returns (mgr: DpbMgr, ret: int)
    ensures mgr.Valid() && ret == -1 && fresh(mgr)
    ensures |mgr.short| == 2 && mgr.long == []
    ensures mgr.short[0].picBuf == mgr.topPics[0] && mgr.short[1].picBuf == mgr.bottomPics[0]
  {
    mgr := new DpbMgr();
    var top, bottom := mgr.topPics[0], mgr.bottomPics[0];
    TopIsNotBottom(mgr, 0);
    top.bufId := 0;
    ghost var node, other;
    ret, node := mgr.InsertRefField(bottom, SHORT_TERM_REF, frameNum, -1);
    assert mgr.short == [node];
    ret, node, other := mgr.InsertRefFrame(top, SHORT_TERM_REF, frameNum, -1);
  }

  lemma TopIsNotBottom(mgr: DpbMgr, k: nat)
    requires mgr.Shape() && k < MAX_DPB_BUFS
    ensures mgr.topPics[k] != mgr.bottomPics[k]
    ensures mgr.topPics[k] in PicSet(mgr.topPics + mgr.bottomPics)
    ensures mgr.bottomPics[k] in PicSet(mgr.topPics + mgr.bottomPics)
  {
    var all := mgr.topPics + mgr.bottomPics;
    assert all[k] == mgr.topPics[k] && all[MAX_DPB_BUFS + k] == mgr.bottomPics[k];
    assert mgr.topPics[k] in PicSet(mgr.topPics) && mgr.bottomPics[k] in PicSet(mgr.bottomPics);
  }

  // ---- pictures that get in twice ----

  // No two nodes hold one picture.
  ghost predicate DistinctPics(mgr: DpbMgr)
    reads Nodes(mgr.infos)`picBuf
  {
    forall n, m :: n in Nodes(mgr.infos) && m in Nodes(mgr.infos) && n != m && n.picBuf != null ==> n.picBuf != m.picBuf
  }

  ghost predicate Held(mgr: DpbMgr, pic: PicBuf)
    reads Nodes(mgr.infos)`picBuf
  {
    exists n :: n in Nodes(mgr.infos) && n.picBuf == pic
  }

  // An insertion keeps the pictures distinct exactly when it fails or no node, on
  // either list, holds the picture yet.
  method InsertDistinct(mgr: DpbMgr, pic: PicBuf, ref: int, frameNum: int, longTermFrameIdx: int) returns (ret: int)
    requires mgr.Valid() && DistinctPics(mgr)
    modifies mgr, Nodes(mgr.infos), pic
    ensures mgr.Valid()
    ensures DistinctPics(mgr) <==> ret != 0 || !old(Held(mgr, pic))
  {
    hide Live, Chained, OnArray, Covered, Distinct;
    ghost var node;
    ghost var held := Held(mgr, pic);
    ret, node := mgr.InsertRefField(pic, ref, frameNum, longTermFrameIdx);
    if ret == 0 && held {
      ghost var other :| other in Nodes(mgr.infos) && old(other.picBuf) == pic;
      assert other != node && other.picBuf == node.picBuf;
    }
  }

  // From a new manager: inserted as short-term, long-term and short-term again, one
  // picture is on two nodes of the short-term list and on one of the other.
  method InsertThreeTimes(frameNum: int) returns (mgr: DpbMgr)
    ensures mgr.Valid() && fresh(mgr)
    ensures |mgr.short| == 2 && mgr.short[0] != mgr.short[1] && |mgr.long| == 1
    ensures mgr.short[0].picBuf == mgr.short[1].picBuf == mgr.long[0].picBuf == mgr.topPics[0]
  {
    hide Live, Chained, OnArray, Covered, Distinct, NoSharing;
    mgr := new DpbMgr();
    var pic := mgr.topPics[0];
    TopIsNotBottom(mgr, 0);
    var ret;
    ghost var first, second, third;
    ret, first := mgr.InsertRefField(pic, SHORT_TERM_REF, frameNum, -1);
    assert mgr.short == [first];
    ret, second := mgr.InsertRefField(pic, LONG_TERM_REF, frameNum, 0);
    assert mgr.long == [second];
    ret, third := mgr.InsertRefField(pic, SHORT_TERM_REF, frameNum, -1);
  }
}
