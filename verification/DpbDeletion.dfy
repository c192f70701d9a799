// Taking nodes off a reference list.
module DpbDeletion {
  import opened Pictures
  import opened FieldOrder
  import opened Marking
  import opened DpbLists

  // The reference markings of pictures.
  ghost function Marks(ps: set<PicBuf>): (r: map<PicBuf, int>)
    reads ps`usedAsRef
  {
    map p | p in ps :: p.usedAsRef
  }

  lemma MarksAt(ps: seq<PicBuf>)
    ensures forall k :: 0 <= k < |ps| ==> ps[k] in Marks(PicSet(ps)) && Marks(PicSet(ps))[ps[k]] == ps[k].usedAsRef
  {
  }

  // Of the pictures ps, marked as in was before, exactly those in gone are now
  // marked unused for reference.
  ghost predicate Marked(ps: seq<PicBuf>, was: map<PicBuf, int>, gone: seq<PicBuf>)
    reads PicSet(ps)`usedAsRef
  {
    && (forall k :: 0 <= k < |ps| ==> ps[k] in was)
    && (forall k {:trigger ps[k].usedAsRef} :: 0 <= k < |ps| ==>
          ps[k].usedAsRef == if ps[k] in gone then UNUSED_FOR_REF else was[ps[k]])
  }

  // Mark the node's picture unused for reference and free the node.
  method Release(node: DpbInfo)
    requires node.picBuf != null
    modifies node`picBuf, node.picBuf`usedAsRef
    ensures node.picBuf == null && old(node.picBuf).usedAsRef == UNUSED_FOR_REF
  {
    node.picBuf.usedAsRef := UNUSED_FOR_REF;
    node.picBuf := null;
  }

  // The last node and its predecessors.
  method LastThree(head: DpbInfo, ghost list: seq<DpbInfo>)
    returns (node1: DpbInfo, node2: DpbInfo, node3: DpbInfo)
    requires |list| >= 3 && Chained(head, list)
    ensures node1 == list[|list| - 3] && node2 == list[|list| - 2] && node3 == list[|list| - 1]
  {
    node1 := head;
    node2 := node1.prevDpb;
    node3 := node2.prevDpb;
    ghost var k := 2;
    while node3.prevDpb != null
      invariant 2 <= k < |list|
      invariant node1 == list[k - 2] && node2 == list[k - 1] && node3 == list[k]
      decreases |list| - k
    {
      node1 := node2;
      node2 := node3;
      node3 := node3.prevDpb;
      k := k + 1;
    }
  }

  // The nodes of list held the pictures ps; those from position kept on were
  // freed and their pictures marked unused, the others left alone.
  ghost predicate CutAt(list: seq<DpbInfo>, ps: seq<PicBuf>, was: map<PicBuf, int>, kept: nat)
    reads Nodes(list)`picBuf, PicSet(ps)`usedAsRef
  {
    && kept <= |list| == |ps|
    && (forall k {:trigger list[k].picBuf} :: 0 <= k < |list| ==> list[k].picBuf == if k < kept then ps[k] else null)
    && Marked(ps, was, ps[kept..])
  }

  method DeleteOfTwo(node1: DpbInfo, node2: DpbInfo, ghost list: seq<DpbInfo>)
    returns (newHead: DpbInfo?, ghost kept: nat)
    requires Distinct(list) && Live(list) && Chained(node1, list)
    requires |list| == 2 && node1 == list[0] && node2 == list[1]
    modifies Nodes(list)`picBuf, Nodes(list)`prevDpb, PicSet(Pics(list))`usedAsRef
    ensures kept == KeepLen(old(Fields(list)))
    ensures Chained(newHead, list[..kept]) && CutAt(list, old(Pics(list)), old(Marks(PicSet(Pics(list)))), kept)
  {
    newHead := node1;
    kept := KeepLen(Fields(list));
    if node2.picBuf.frameNum == node1.picBuf.frameNum {
      Release(node1);
      newHead := null;
    }
    Release(node2);
    node1.prevDpb := null;
  }

  lemma ChainPrefix(head: DpbInfo?, list: seq<DpbInfo>, kept: nat)
    requires kept <= |list| && head == if kept == 0 then null else list[0]
    requires forall k {:trigger list[k].prevDpb} :: 0 <= k < kept ==>
               list[k].prevDpb == if k + 1 < kept then list[k + 1] else null
    ensures Chained(head, list[..kept])
  {
  }

  // Take the last node off a list of at least two.
  method DropOne(before: DpbInfo, last: DpbInfo, ghost head: DpbInfo, ghost list: seq<DpbInfo>)
    requires Distinct(list) && Live(list) && Chained(head, list) && |list| >= 2
    requires before == list[|list| - 2] && last == list[|list| - 1]
    modifies last`picBuf, last.picBuf`usedAsRef, before`prevDpb
    ensures Chained(head, list[..|list| - 1])
    ensures CutAt(list, old(Pics(list)), old(Marks(PicSet(Pics(list)))), |list| - 1)
  {
    hide Views, Pics, Marks;
    ghost var ps, was := Pics(list), Marks(PicSet(Pics(list)));
    MarksAt(ps);
    assert ps[|list| - 1..] == [last.picBuf];
    last.picBuf.usedAsRef := UNUSED_FOR_REF;
    last.picBuf := null;
    before.prevDpb := null;
    ChainPrefix(head, list, |list| - 1);
  }

  // Take the last two nodes off a list of at least three.
  method DropTwo(node1: DpbInfo, node2: DpbInfo, node3: DpbInfo, ghost head: DpbInfo, ghost list: seq<DpbInfo>)
    requires Distinct(list) && Live(list) && Chained(head, list) && |list| >= 3
    requires node1 == list[|list| - 3] && node2 == list[|list| - 2] && node3 == list[|list| - 1]
    modifies node2`picBuf, node3`picBuf, node2.picBuf`usedAsRef, node3.picBuf`usedAsRef
    modifies node1`prevDpb, node2`prevDpb
    ensures Chained(head, list[..|list| - 2])
    ensures CutAt(list, old(Pics(list)), old(Marks(PicSet(Pics(list)))), |list| - 2)
  {
    hide Views, Pics, Marks;
    ghost var ps, was := Pics(list), Marks(PicSet(Pics(list)));
    MarksAt(ps);
    assert ps[|list| - 2..] == [node2.picBuf, node3.picBuf];
    node2.picBuf.usedAsRef := UNUSED_FOR_REF;
    node2.picBuf := null;
    node1.prevDpb := null;
    node3.picBuf.usedAsRef := UNUSED_FOR_REF;
    node3.picBuf := null;
    node2.prevDpb := null;
    ChainPrefix(head, list, |list| - 2);
    assert Marked(ps, was, ps[|list| - 2..]);
  }

  method DeleteOfMany(head: DpbInfo, ghost list: seq<DpbInfo>) returns (ghost kept: nat)
    requires Distinct(list) && Live(list) && Chained(head, list) && |list| >= 3
    modifies Nodes(list)`picBuf, Nodes(list)`prevDpb, PicSet(Pics(list))`usedAsRef
    ensures kept == KeepLen(old(Fields(list)))
    ensures Chained(head, list[..kept]) && CutAt(list, old(Pics(list)), old(Marks(PicSet(Pics(list)))), kept)
  {
    hide Views, CutAt, Distinct;
    kept := KeepLen(Fields(list));
    var node1, node2, node3 := LastThree(head, list);
    assert Pics(list)[|list| - 2] == node2.picBuf && Pics(list)[|list| - 1] == node3.picBuf;
    if node2.picBuf.frameNum == node3.picBuf.frameNum {
      DropTwo(node1, node2, node3, head, list);
    } else {
      DropOne(node2, node3, head, list);
    }
  }

  // Delete the frame at the end of a list.
  method DeleteLast(head: DpbInfo?, ghost list: seq<DpbInfo>) returns (newHead: DpbInfo?, ghost kept: nat)
    requires Distinct(list) && Live(list) && Chained(head, list)
    modifies Nodes(list)`picBuf, Nodes(list)`prevDpb, PicSet(Pics(list))`usedAsRef
    ensures kept == KeepLen(old(Fields(list)))
    ensures Chained(newHead, list[..kept]) && CutAt(list, old(Pics(list)), old(Marks(PicSet(Pics(list)))), kept)
  {
    hide Nodes, PicSet, Pics, Views, Distinct;
    newHead, kept := head, 0;
    if head == null {
      return;
    }
    var node1 := head;
    if node1.prevDpb == null {
      Release(node1);
      newHead := null;
      return;
    }
    var node2 := node1.prevDpb;
    if node2.prevDpb == null {
      newHead, kept := DeleteOfTwo(node1, node2, list);
      return;
    }
    kept := DeleteOfMany(head, list);
  }

  lemma CutNodes(list: seq<DpbInfo>, ps: seq<PicBuf>, was: map<PicBuf, int>, kept: nat)
    requires Distinct(list) && CutAt(list, ps, was, kept)
    ensures Distinct(list[..kept]) && Live(list[..kept])
    ensures forall n :: n in list && n !in list[..kept] ==> n.picBuf == null
    ensures forall n :: n in list[..kept] ==> n in list
  {
    forall k | 0 <= k < |list|
      ensures list[k] in list[..kept] || list[k].picBuf == null
    {
      if k < kept {
        assert list[..kept][k] == list[k];
      }
    }
  }

  lemma CutFields(list: seq<DpbInfo>, ps: seq<PicBuf>, was: map<PicBuf, int>, kept: nat)
    requires CutAt(list, ps, was, kept)
    ensures Live(list[..kept]) && Fields(list[..kept]) == Views(ps)[..kept]
  {
    hide Pics, Views;
  }

  // Of the pictures all, those in rest may still be in use; the others are
  // marked unused for reference.
  ghost predicate Drained(all: set<PicBuf>, rest: set<PicBuf>)
    reads all`usedAsRef
  {
    forall p :: p in all && p !in rest ==> p.usedAsRef == UNUSED_FOR_REF
  }

  // Cutting a list whose pictures are rest leaves a smaller rest.
  lemma DrainStep(all: set<PicBuf>, other: set<PicBuf>, list: seq<DpbInfo>, ps: seq<PicBuf>, was: map<PicBuf, int>,
                  kept: nat)
    requires CutAt(list, ps, was, kept) && Live(list[..kept])
    requires forall p :: p in all && p !in PicSet(ps) + other ==> p.usedAsRef == UNUSED_FOR_REF
    ensures PicSet(Pics(list[..kept])) <= PicSet(ps)
    ensures Drained(all, PicSet(Pics(list[..kept])) + other)
  {
    hide Views, Pics;
    var rest := list[..kept];
    forall p | p in PicSet(Pics(rest)) ensures p in PicSet(ps) {
      var k :| 0 <= k < kept && Pics(rest)[k] == p;
      assert rest[k] == list[k] && list[k].picBuf == ps[k];
    }
    forall k | 0 <= k < kept ensures ps[k] in PicSet(Pics(rest)) {
      assert rest[k] == list[k] && list[k].picBuf == ps[k];
      assert Pics(rest)[k] == ps[k];
    }
    forall p | p in all && p !in PicSet(Pics(rest)) + other ensures p.usedAsRef == UNUSED_FOR_REF {
      if p in PicSet(ps) {
        var k :| 0 <= k < |ps| && ps[k] == p;
        assert ps[kept..][k - kept] == p;
        assert ps[k].usedAsRef == UNUSED_FOR_REF;
      }
    }
  }

  // Delete the frame at the end of a list; what the caller needs to know.
  method CutEnd(head: DpbInfo?, ghost list: seq<DpbInfo>) returns (newHead: DpbInfo?, ghost kept: nat)
    requires Distinct(list) && Live(list) && Chained(head, list)
    modifies Nodes(list)`picBuf, Nodes(list)`prevDpb, PicSet(Pics(list))`usedAsRef
    ensures kept == KeepLen(old(Fields(list)))
    ensures CutAt(list, old(Pics(list)), old(Marks(PicSet(Pics(list)))), kept)
    ensures Distinct(list[..kept]) && Live(list[..kept]) && Chained(newHead, list[..kept])
    ensures forall n :: n in list && n !in list[..kept] ==> n.picBuf == null
    ensures forall n :: n in list[..kept] ==> n in list
    ensures Fields(list[..kept]) == old(Fields(list))[..kept]
  {
    hide Pics, Marks, KeepLen, CutAt, Marked, Distinct, Chained, Live, PicSet;
    ghost var ps, was, start := Pics(list), Marks(PicSet(Pics(list))), Fields(list);
    assert Views(ps) == start;
    newHead, kept := DeleteLast(head, list);
    CutNodes(list, ps, was, kept);
    CutFields(list, ps, was, kept);
    assert Views(ps) == start;
  }

  // gone lists the pictures, out of ps, of the nodes of list that are not on cur.
  ghost predicate GoneFrom(list: seq<DpbInfo>, ps: seq<PicBuf>, cur: seq<DpbInfo>, gone: seq<PicBuf>) {
    && |ps| == |list|
    && (forall k :: 0 <= k < |list| && list[k] !in cur ==> ps[k] in gone)
    && (forall i :: 0 <= i < |gone| ==> exists k :: 0 <= k < |list| && list[k] !in cur && ps[k] == gone[i])
  }

  // The nodes of list held the pictures ps; those no longer on cur were freed
  // and their pictures, gone, marked unused; the others were left alone.
  ghost predicate Thinned(list: seq<DpbInfo>, ps: seq<PicBuf>, was: map<PicBuf, int>, cur: seq<DpbInfo>,
      gone: seq<PicBuf>)
    reads Nodes(list)`picBuf, PicSet(ps)`usedAsRef
  {
    && GoneFrom(list, ps, cur, gone)
    && (forall n :: n in cur ==> n in list)
    && (forall k {:trigger list[k].picBuf} :: 0 <= k < |list| ==>
          list[k].picBuf == if list[k] in cur then ps[k] else null)
    && Marked(ps, was, gone)
  }

  lemma GoneStep(list: seq<DpbInfo>, ps: seq<PicBuf>, cur: seq<DpbInfo>, gone: seq<PicBuf>,
                 cur': seq<DpbInfo>, m: nat)
    requires Distinct(list) && GoneFrom(list, ps, cur, gone)
    requires m < |list| && list[m] !in cur'
    requires forall n :: n in cur' <==> n in cur && n != list[m]
    ensures GoneFrom(list, ps, cur', gone + [ps[m]])
  {
    var gone' := gone + [ps[m]];
    forall k | 0 <= k < |list| && list[k] !in cur' ensures ps[k] in gone' {
      if list[k] in cur {
        assert list[k] == list[m];
      }
    }
  }

  // Release node m of list, which is on cur but not on cur'.
  method ReleaseOne(node: DpbInfo, ghost list: seq<DpbInfo>, ghost ps: seq<PicBuf>, ghost was: map<PicBuf, int>,
                    ghost cur: seq<DpbInfo>, ghost gone: seq<PicBuf>, ghost cur': seq<DpbInfo>)
    returns (ghost gone': seq<PicBuf>)
    requires Distinct(list) && Thinned(list, ps, was, cur, gone) && node in cur
    requires forall n :: n in cur' <==> n in cur && n != node
    modifies node`picBuf, node.picBuf`usedAsRef
    ensures Thinned(list, ps, was, cur', gone')
  {
    ghost var m :| 0 <= m < |list| && list[m] == node;
    assert list[m].picBuf == ps[m];
    GoneStep(list, ps, cur, gone, cur', m);
    gone' := gone + [ps[m]];
    Release(node);
  }

  // The current chain cur of a list being trimmed, and what has become of the rest.
  ghost predicate Trimming(list: seq<DpbInfo>, ps: seq<PicBuf>, was: map<PicBuf, int>, head: DpbInfo?,
                           cur: seq<DpbInfo>, gone: seq<PicBuf>)
    reads Nodes(list)`picBuf, PicSet(ps)`usedAsRef, Nodes(cur)`picBuf, Nodes(cur)`prevDpb
  {
    Distinct(list) && Distinct(cur) && Live(cur) && Chained(head, cur) && Thinned(list, ps, was, cur, gone)
  }

  lemma TrimmingStart(head: DpbInfo?, list: seq<DpbInfo>)
    requires Distinct(list) && Live(list) && Chained(head, list)
    ensures Trimming(list, Pics(list), Marks(PicSet(Pics(list))), head, list, [])
  {
  }

  lemma ThinnedNode(list: seq<DpbInfo>, ps: seq<PicBuf>, was: map<PicBuf, int>, cur: seq<DpbInfo>, gone: seq<PicBuf>,
      n: DpbInfo)
    requires Thinned(list, ps, was, cur, gone) && n in cur
    ensures n in list && n.picBuf in ps
  {
  }

  method ReleaseHead(head: DpbInfo, ghost list: seq<DpbInfo>, ghost ps: seq<PicBuf>, ghost was: map<PicBuf, int>,
                     ghost cur: seq<DpbInfo>, ghost gone: seq<PicBuf>)
    returns (ghost gone': seq<PicBuf>)
    requires Trimming(list, ps, was, head, cur, gone)
    modifies head`picBuf, head.picBuf`usedAsRef
    ensures Trimming(list, ps, was, head.prevDpb, cur[1..], gone')
    ensures Fields(cur[1..]) == old(Fields(cur))[1..]
  {
    hide Nodes, PicSet, Pics, Views, Thinned;
    assert head == cur[0] && cur == [cur[0]] + cur[1..];
    assert forall k :: 0 <= k < |cur[1..]| ==> cur[1..][k] == cur[k + 1];
    gone' := ReleaseOne(head, list, ps, was, cur, gone, cur[1..]);
  }

  // Free fields from the head until one within the maximum is found.
  method TrimLeading(head: DpbInfo?, max: int, ghost list: seq<DpbInfo>, ghost ps: seq<PicBuf>, ghost was: map<PicBuf,
      int>)
    returns (newHead: DpbInfo?, ghost cur: seq<DpbInfo>, ghost gone: seq<PicBuf>)
    requires Trimming(list, ps, was, head, list, [])
    modifies Nodes(list)`picBuf, PicSet(ps)`usedAsRef
    ensures Trimming(list, ps, was, newHead, cur, gone)
    ensures Fields(cur) == DropLeading(old(Fields(list)), max)
  {
    hide Nodes, PicSet, Pics, Views, Thinned, Distinct;
    newHead, cur, gone := head, list, [];
    ghost var goal := DropLeading(Fields(list), max);
    while newHead != null
      invariant Trimming(list, ps, was, newHead, cur, gone)
      invariant DropLeading(Fields(cur), max) == goal
      decreases |cur|
    {
      if newHead.picBuf.longTermFrameIdx <= max {
        break;
      }
      ThinnedNode(list, ps, was, cur, gone, newHead);
      gone := ReleaseHead(newHead, list, ps, was, cur, gone);
      newHead := newHead.prevDpb;
      cur := cur[1..];
    }
  }

  lemma WithoutNodes(cur: seq<DpbInfo>, p: nat)
    requires p < |cur| && Distinct(cur)
    ensures Distinct(Without(cur, p))
    ensures forall n :: n in Without(cur, p) <==> n in cur && n != cur[p]
    ensures forall k :: 0 <= k < |cur| - 1 ==> Without(cur, p)[k] == cur[if k < p then k else k + 1]
  {
    assert cur == cur[..p] + [cur[p]] + cur[p + 1..];
  }

  // Skipping one node of a chain.
  lemma ChainWithout(head: DpbInfo, cur: seq<DpbInfo>, p: nat)
    requires 0 < p < |cur| && head == cur[0]
    requires forall k {:trigger cur[k].prevDpb} :: 0 <= k < |cur| && k != p ==>
               cur[k].prevDpb == Nth(cur, if k == p - 1 then p + 1 else k + 1)
    ensures Chained(head, Without(cur, p))
  {
    var t := Without(cur, p);
    forall k | 0 <= k < |t| ensures t[k].prevDpb == Nth(t, k + 1) {
      assert t[k] == cur[if k < p then k else k + 1];
    }
  }

  // The fields left on a list when one node goes, its picture field cleared or not.
  lemma FieldsWithout(cur: seq<DpbInfo>, v: seq<Field>, p: nat)
    requires p < |cur| == |v|
    requires forall k :: 0 <= k < |cur| && k != p ==> cur[k].picBuf != null && v[k] == View(cur[k].picBuf)
    ensures Live(Without(cur, p)) && Fields(Without(cur, p)) == Without(v, p)
  {
    hide Pics, Views;
    var t := Without(cur, p);
    assert forall k :: 0 <= k < |t| ==> t[k] == cur[if k < p then k else k + 1];
    forall k | 0 <= k < |t| ensures Fields(t)[k] == Without(v, p)[k] {
      assert t[k] == cur[if k < p then k else k + 1];
    }
  }

  method Unlink(node1: DpbInfo, node2: DpbInfo, ghost head: DpbInfo, ghost list: seq<DpbInfo>,
                ghost ps: seq<PicBuf>, ghost was: map<PicBuf, int>,
                ghost cur: seq<DpbInfo>, ghost gone: seq<PicBuf>, ghost p: int)
    returns (ghost gone': seq<PicBuf>)
    requires Trimming(list, ps, was, head, cur, gone)
    requires 0 <= p && p + 1 < |cur| && node1 == cur[p] && node2 == cur[p + 1]
    modifies node2`picBuf, node2.picBuf`usedAsRef, node1`prevDpb
    ensures Trimming(list, ps, was, head, Without(cur, p + 1), gone')
    ensures Fields(Without(cur, p + 1)) == Without(old(Fields(cur)), p + 1)
  {
    hide Nodes, PicSet, Pics, Views, Thinned, Without;
    ghost var cur', v := Without(cur, p + 1), Fields(cur);
    WithoutNodes(cur, p + 1);
    gone' := ReleaseOne(node2, list, ps, was, cur, gone, cur');
    node1.prevDpb := node2.prevDpb;
    ChainWithout(head, cur, p + 1);
    FieldsWithout(cur, v, p + 1);
  }

  // The body of the second trimming loop.
  method TrimTurn(node1: DpbInfo, node2: DpbInfo, max: int, ghost head: DpbInfo, ghost list: seq<DpbInfo>,
                  ghost ps: seq<PicBuf>, ghost was: map<PicBuf, int>, ghost cur: seq<DpbInfo>, ghost gone: seq<PicBuf>,
                  ghost p: int, ghost goal: seq<Field>)
    returns (next: DpbInfo?, ghost cur': seq<DpbInfo>, ghost gone': seq<PicBuf>)
    requires Trimming(list, ps, was, head, cur, gone)
    requires 0 <= p && p + 1 < |cur| && node1 == cur[p] && node2 == cur[p + 1]
    requires Fields(cur)[..p] + TrimRest(Fields(cur)[p..], max) == goal
    modifies Nodes(list)`picBuf, Nodes(list)`prevDpb, PicSet(ps)`usedAsRef
    ensures Trimming(list, ps, was, head, cur', gone')
    ensures p < |cur'| <= |cur| && next == Nth(cur', p + 1)
    ensures if next == null then Fields(cur') == goal
            else Fields(cur')[..p + 1] + TrimRest(Fields(cur')[p + 1..], max) == goal
  {
    hide Nodes, PicSet, Pics, Views, Fields, Thinned, Distinct, TrimRest;
    cur', gone' := cur, gone;
    TrimStep(Fields(cur), p, max);
    if node2.picBuf.longTermFrameIdx > max {
      ThinnedNode(list, ps, was, cur, gone, node1);
      ThinnedNode(list, ps, was, cur, gone, node2);
      gone' := Unlink(node1, node2, head, list, ps, was, cur, gone, p);
      cur' := Without(cur, p + 1);
      assert cur'[p] == node1;
    }
    next := node1.prevDpb;
  }

  // From a head that stays, unlink fields above the maximum.
  method TrimFollowing(head: DpbInfo, max: int, ghost list: seq<DpbInfo>, ghost ps: seq<PicBuf>,
      ghost was: map<PicBuf, int>,
                       ghost start: seq<DpbInfo>, ghost gone0: seq<PicBuf>)
    returns (ghost cur: seq<DpbInfo>, ghost gone: seq<PicBuf>)
    requires Trimming(list, ps, was, head, start, gone0)
    modifies Nodes(list)`picBuf, Nodes(list)`prevDpb, PicSet(ps)`usedAsRef
    ensures Trimming(list, ps, was, head, cur, gone)
    ensures start != [] && Fields(cur) == TrimRest(old(Fields(start)), max)
  {
    hide Nodes, PicSet, Pics, Views, Fields, Thinned, Distinct, TrimRest;
    cur, gone := start, gone0;
    ghost var goal := TrimRest(Fields(start), max);
    ghost var p := 0;
    var node1 := head;
    var node2 := node1.prevDpb;
    assert Fields(cur)[0..] == Fields(cur);
    while node2 != null
      invariant Trimming(list, ps, was, head, cur, gone)
      invariant 0 <= p < |cur| && node1 == cur[p] && node2 == Nth(cur, p + 1)
      invariant Fields(cur)[..p] + TrimRest(Fields(cur)[p..], max) == goal
      decreases |cur| - p
    {
      var next;
      next, cur, gone := TrimTurn(node1, node2, max, head, list, ps, was, cur, gone, p, goal);
      node1 := next;
      if node1 == null {
        return;
      }
      node2 := node1.prevDpb;
      p := p + 1;
    }
    TrimLast(Fields(cur), p, max);
  }

  // Both trimming loops.
  method TrimNodes(head: DpbInfo?, max: int, ghost list: seq<DpbInfo>)
    returns (newHead: DpbInfo?, ghost cur: seq<DpbInfo>, ghost gone: seq<PicBuf>)
    requires Distinct(list) && Live(list) && Chained(head, list)
    modifies Nodes(list)`picBuf, Nodes(list)`prevDpb, PicSet(Pics(list))`usedAsRef
    ensures Distinct(cur) && Live(cur) && Chained(newHead, cur)
    ensures Fields(cur) == Trim(old(Fields(list)), max)
    ensures Thinned(list, old(Pics(list)), old(Marks(PicSet(Pics(list)))), cur, gone)
    ensures forall n :: n in cur ==> n in list
    ensures forall n :: n in list && n !in cur ==> n.picBuf == null
  {
    TrimmingStart(head, list);
    hide Nodes, PicSet, Pics, Views, Fields, Marks, Marked, Distinct, Live, TrimRest, DropLeading, Chained;
    ghost var ps, was := Pics(list), Marks(PicSet(Pics(list)));
    newHead, cur, gone := TrimLeading(head, max, list, ps, was);
    if newHead != null {
      cur, gone := TrimFollowing(newHead, max, list, ps, was, cur, gone);
    }
  }
}
