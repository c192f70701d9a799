// The links of the reference lists, and the walks that reorder a whole list.
module DpbLists {
  import opened Pictures
  import opened FieldOrder
  import opened ExchangeSort
  import opened Pairing
  import opened Alternation
  import opened Counting

  // dpb_info_t: one link of a reference list. It is free when it has no picture.
  class DpbInfo {
    var picBuf: PicBuf?
    var prevDpb: DpbInfo?

    constructor ()
      ensures picBuf == null && prevDpb == null
    {
      picBuf, prevDpb := null, null;
    }
  }

  // The k-th node of a list, or null just past its end.
  function Nth(list: seq<DpbInfo>, k: nat): DpbInfo? {
    if k < |list| then list[k] else null
  }

  ghost predicate Distinct<T>(s: seq<T>) {
    forall i, j :: 0 <= i < j < |s| ==> s[i] != s[j]
  }

  // The nodes on a list.
  ghost function Nodes(list: seq<DpbInfo>): (r: set<DpbInfo>)
    ensures forall k :: 0 <= k < |list| ==> list[k] in r
  {
    set n | n in list
  }

  lemma SubsetCard<T>(a: set<T>, b: set<T>)
    requires a <= b
    ensures |a| <= |b|
    ensures |a| == |b| ==> a == b
  {
    assert b == a + (b - a);
  }

  lemma DistinctPush<T>(x: T, s: seq<T>)
    requires Distinct(s) && x !in s
    ensures Distinct([x] + s)
  {
  }

  lemma {:induction false} NodesCard(list: seq<DpbInfo>)
    requires Distinct(list)
    ensures |Nodes(list)| == |list|
  {
    if list != [] {
      NodesCard(list[1..]);
      assert list == [list[0]] + list[1..];
      assert Nodes(list) == {list[0]} + Nodes(list[1..]);
    }
  }

  ghost function PicSet(ps: seq<PicBuf>): (r: set<PicBuf>)
    ensures forall k :: 0 <= k < |ps| ==> ps[k] in r
  {
    set p | p in ps
  }

  // The nodes of list form a null-terminated chain that starts at head.
  ghost predicate Chained(head: DpbInfo?, list: seq<DpbInfo>)
    reads Nodes(list)`prevDpb
  {
    && head == Nth(list, 0)
    && (forall k {:trigger list[k].prevDpb} :: 0 <= k < |list| ==> list[k].prevDpb == Nth(list, k + 1))
  }

  // Each node of list holds a picture.
  ghost predicate Live(list: seq<DpbInfo>)
    reads Nodes(list)`picBuf
  {
    forall k {:trigger list[k].picBuf} :: 0 <= k < |list| ==> list[k].picBuf != null
  }

  ghost function Pics(list: seq<DpbInfo>): (r: seq<PicBuf>)
    requires Live(list)
    reads Nodes(list)`picBuf
    ensures |r| == |list|
    ensures forall k :: 0 <= k < |r| ==> r[k] == list[k].picBuf
  {
    if list == [] then [] else Pics(list[..|list| - 1]) + [list[|list| - 1].picBuf]
  }

  ghost function Views(ps: seq<PicBuf>): (r: seq<Field>)
    reads PicSet(ps)`frameNum, PicSet(ps)`absPoc, PicSet(ps)`fieldType, PicSet(ps)`longTermFrameIdx
    ensures |r| == |ps|
    ensures forall k :: 0 <= k < |r| ==> r[k] == View(ps[k])
  {
    if ps == [] then [] else Views(ps[..|ps| - 1]) + [View(ps[|ps| - 1])]
  }

  function PicsIn(s: seq<Field>): set<PicBuf> {
    set f | f in s :: f.pic
  }

  lemma PicsInFields(list: seq<DpbInfo>)
    requires Live(list)
    ensures PicSet(Pics(list)) == PicsIn(Fields(list))
    ensures forall k :: 0 <= k < |list| ==> Fields(list)[k] == View(Pics(list)[k]) && Pics(list)[k] == list[k].picBuf
  {
    hide Pics, Views;
    var ps, fs := Pics(list), Fields(list);
    forall p | p in PicSet(ps) ensures p in PicsIn(fs) {
      var k :| 0 <= k < |ps| && ps[k] == p;
      assert fs[k].pic == p && fs[k] in fs;
    }
    forall p | p in PicsIn(fs) ensures p in PicSet(ps) {
      var k :| 0 <= k < |fs| && fs[k].pic == p;
      assert ps[k] == p;
    }
  }

  lemma PrefixPics(s: seq<Field>, n: nat)
    requires n <= |s|
    ensures PicsIn(s[..n]) <= PicsIn(s)
  {
  }

  lemma PicsInPermute(a: seq<Field>, b: seq<Field>)
    requires Permutation(a, b)
    ensures PicsIn(a) == PicsIn(b)
  {
    PermutationAll(a, b);
  }

  // Exchange the pictures of two nodes of one list.
  method SwapPics(node1: DpbInfo, node2: DpbInfo, ghost list: seq<DpbInfo>, ghost i: int, ghost j: int)
    requires Distinct(list) && Live(list)
    requires 0 <= i < j < |list| && node1 == list[i] && node2 == list[j]
    modifies node1`picBuf, node2`picBuf
    ensures Live(list)
    ensures Pics(list) == Swap(old(Pics(list)), i, j)
  {
    hide Pics;
    node1.picBuf, node2.picBuf := node2.picBuf, node1.picBuf;
  }

  // The fields on a list, in list order.
  ghost function Fields(list: seq<DpbInfo>): (r: seq<Field>)
    requires Live(list)
    reads Nodes(list)`picBuf
    reads PicSet(Pics(list))`frameNum, PicSet(Pics(list))`absPoc
    reads PicSet(Pics(list))`fieldType, PicSet(Pics(list))`longTermFrameIdx
    ensures |r| == |list|
    ensures forall k :: 0 <= k < |r| ==> r[k] == View(list[k].picBuf)
  {
    Views(Pics(list))
  }

  // The body of the inner loop of a sort.
  method CompareExchange(order: Order, node1: DpbInfo, node2: DpbInfo,
                         ghost head: DpbInfo?, ghost list: seq<DpbInfo>, ghost i: int, ghost j: int,
                         ghost start: seq<Field>)
    requires Distinct(list) && Live(list) && Chained(head, list)
    requires 0 <= i < j < |list| && node1 == list[i] && node2 == list[j]
    requires Stage(order, start, Fields(list), i, j)
    modifies Nodes(list)`picBuf
    ensures Live(list) && Chained(head, list) && Stage(order, start, Fields(list), i, j + 1)
  {
    hide Pics, Views;
    ghost var v := Fields(list);
    // The code asserts, before a POC comparison, that neither POC is the current one.
    assert AllComparable(order, start) ==>
        Comparable(order, View(node1.picBuf)) && Comparable(order, View(node2.picBuf));
    if MustSwap(order, View(node1.picBuf), View(node2.picBuf)) {
      SwapPics(node1, node2, list, i, j);
      assert Fields(list) == Swap(v, i, j);
    }
    Step(order, start, v, i, j, Fields(list));
  }

  // The inner loop of a sort.
  method ExchangeRow(order: Order, node1: DpbInfo,
                     ghost head: DpbInfo?, ghost list: seq<DpbInfo>, ghost i: int, ghost start: seq<Field>)
    requires Distinct(list) && Live(list) && Chained(head, list)
    requires 0 <= i < |list| && node1 == list[i]
    requires Stage(order, start, Fields(list), i, i + 1)
    modifies Nodes(list)`picBuf
    ensures Live(list) && Chained(head, list) && Stage(order, start, Fields(list), i + 1, i + 2)
  {
    hide Distinct, Stage, Live, Fields, Pics, Views;
    var node2 := node1.prevDpb;
    ghost var j := i + 1;
    while node2 != null
      invariant i < j <= |list| && node2 == Nth(list, j)
      invariant Live(list) && Chained(head, list)
      invariant Stage(order, start, Fields(list), i, j)
      decreases |list| - j
    {
      CompareExchange(order, node1, node2, head, list, i, j, start);
      node2 := node2.prevDpb;
      j := j + 1;
    }
    NextRow(order, start, Fields(list), i);
  }

  // The exchange loops of a sort.
  method Exchange(order: Order, head: DpbInfo?, ghost list: seq<DpbInfo>)
    requires Distinct(list) && Live(list) && Chained(head, list)
    modifies Nodes(list)`picBuf
    ensures Live(list)
    ensures Fields(list) == Exchanged(order, old(Fields(list)))
    ensures Permutation(Fields(list), old(Fields(list)))
    ensures old(AllComparable(order, Fields(list))) ==> Sorted(order, Fields(list))
  {
    hide Pics, Views;
    ghost var start := Fields(list);
    var node1 := head;
    ghost var i := 0;
    Bounds(order, start);
    while node1 != null
      invariant 0 <= i <= |list| && node1 == Nth(list, i)
      invariant Live(list) && Chained(head, list)
      invariant Stage(order, start, Fields(list), i, i + 1)
      decreases |list| - i
    {
      ExchangeRow(order, node1, head, list, i, start);
      node1 := node1.prevDpb;
      i := i + 1;
    }
    Done(order, start, Fields(list));
  }

  method PairExchange(k: Key, first: int, node1: DpbInfo, node2: DpbInfo,
                      ghost head: DpbInfo?, ghost list: seq<DpbInfo>, ghost i: int, ghost one: bool)
    requires Distinct(list) && Live(list) && Chained(head, list)
    requires 0 <= i && i + 1 < |list| && node1 == list[i] && node2 == list[i + 1]
    requires one ==> OnePerParity(k, Fields(list))
    modifies Nodes(list)`picBuf
    ensures Live(list) && Chained(head, list)
    ensures one ==> OnePerParity(k, Fields(list))
    ensures Fields(list) == PairStep(k, first, old(Fields(list)), i)
  {
    hide Pics, Views;
    ghost var v := Fields(list);
    var pic1, pic2 := node1.picBuf, node2.picBuf;
    assert View(pic1) == v[i] && View(pic2) == v[i + 1];
    if KeyOf(k, View(pic1)) == KeyOf(k, View(pic2)) {
      // The code asserts that the two parities differ.
      assert one ==> pic1.fieldType != pic2.fieldType;
      if pic1.fieldType != first {
        SwapPics(node1, node2, list, i, i + 1);
        assert Fields(list) == Swap(v, i, i + 1);
      }
    }
  }

  // The pass that ends a sort. The list is not empty.
  method PairUp(k: Key, first: int, head: DpbInfo, ghost list: seq<DpbInfo>)
    requires Distinct(list) && Live(list) && Chained(head, list)
    modifies Nodes(list)`picBuf
    ensures Live(list)
    ensures Fields(list) == PairPass(k, first, old(Fields(list)), 0)
  {
    hide Distinct, OnePerParity, Live, Fields, Pics, Views, PairPass, PairStep;
    ghost var start := Fields(list);
    ghost var one := OnePerParity(k, start);
    var node1 := head;
    var node2 := node1.prevDpb;
    ghost var i := 0;
    while node2 != null
      invariant 0 <= i < |list| && node1 == list[i] && node2 == Nth(list, i + 1)
      invariant Live(list) && Chained(head, list)
      invariant one ==> OnePerParity(k, Fields(list))
      invariant PairPass(k, first, Fields(list), i) == PairPass(k, first, start, 0)
      decreases |list| - i
    {
      PairPassUnfold(k, first, Fields(list), i);
      PairExchange(k, first, node1, node2, head, list, i, one);
      node1 := node2;
      node2 := node2.prevDpb;
      i := i + 1;
    }
    PairPassUnfold(k, first, Fields(list), i);
  }

  // Unlink node4 = cur[q] from behind node3 and put it in front of node2 = cur[p].
  method Relink(node1: DpbInfo, node2: DpbInfo, node3: DpbInfo, node4: DpbInfo,
                dpbHead: DpbInfo, ghost cur: seq<DpbInfo>, ghost p: int, ghost q: int)
    requires Distinct(cur) && dpbHead !in cur && Chained(dpbHead.prevDpb, cur)
    requires 0 <= p < q < |cur|
    requires node1 == (if p == 0 then dpbHead else cur[p - 1]) && node2 == cur[p]
    requires node3 == cur[q - 1] && node4 == cur[q]
    modifies node1`prevDpb, node3`prevDpb, node4`prevDpb
    ensures Chained(dpbHead.prevDpb, MoveUp(cur, p, q))
    ensures node1.prevDpb == node4
  {
    node1.prevDpb := node4;
    node3.prevDpb := node4.prevDpb;
    node4.prevDpb := node2;
  }

  lemma MoveUpFields(list: seq<DpbInfo>, p: nat, q: nat)
    requires p <= q < |list| && Live(list) && Distinct(list)
    ensures Live(MoveUp(list, p, q)) && Distinct(MoveUp(list, p, q))
    ensures Fields(MoveUp(list, p, q)) == MoveUp(Fields(list), p, q)
  {
  }

  // Walk from node2 = cur[p], which is not of the expected parity, to the next
  // node that is, and its predecessor.
  method Search(node2: DpbInfo, expected: int, ghost head: DpbInfo?, ghost cur: seq<DpbInfo>, ghost p: int)
    returns (node3: DpbInfo, node4: DpbInfo?, ghost q: int)
    requires Live(cur) && Chained(head, cur)
    requires 0 <= p < |cur| && node2 == cur[p] && Fields(cur)[p].parity != expected
    ensures p < q <= |cur| && node3 == cur[q - 1] && node4 == Nth(cur, q)
    ensures q == p + FirstOf(Fields(cur)[p..], expected)
  {
    hide Pics, Views;
    node3 := node2;
    node4 := node2.prevDpb;
    q := p + 1;
    while node4 != null && node4.picBuf.fieldType != expected
      invariant p < q <= |cur| && node3 == cur[q - 1] && node4 == Nth(cur, q)
      invariant forall i :: p <= i < q ==> Fields(cur)[i].parity != expected
      decreases |cur| - q
    {
      node3 := node4;
      node4 := node4.prevDpb;
      q := q + 1;
    }
    FirstOfIs(Fields(cur)[p..], expected, q - p);
  }

  // One turn of the relinking loop: bring the next node of the expected parity
  // to position p. There may be none.
  method BringUp(node1: DpbInfo, node2: DpbInfo, expected: int, dpbHead: DpbInfo,
                 ghost list: seq<DpbInfo>, ghost cur: seq<DpbInfo>, ghost p: int)
    returns (found: bool, ghost q: nat, ghost cur': seq<DpbInfo>)
    requires Distinct(cur) && Live(cur) && Chained(dpbHead.prevDpb, cur)
    requires dpbHead !in cur && forall n :: n in cur ==> n in list
    requires 0 <= p < |cur|
    requires node1 == (if p == 0 then dpbHead else cur[p - 1]) && node2 == cur[p]
    modifies Nodes(list)`prevDpb, dpbHead`prevDpb
    ensures Live(cur) && Fields(cur) == old(Fields(cur))
    ensures q == p + FirstOf(old(Fields(cur))[p..], expected) && q <= |cur|
    ensures found == (q < |cur|) && cur' == if found then MoveUp(cur, p, q) else cur
    ensures Chained(dpbHead.prevDpb, cur')
    ensures node1.prevDpb == Nth(cur', p)
  {
    hide Nodes, PicSet, Views, Pics, FirstOf, Distinct, MoveUp;
    found, q, cur' := true, p, cur;
    ghost var v := Fields(cur);
    if node2.picBuf.fieldType != expected {
      var node3, node4;
      node3, node4, q := Search(node2, expected, dpbHead.prevDpb, cur, p);
      assert Fields(cur) == v;
      if node4 == null {
        found := false;
      } else {
        assert node1 == dpbHead || node1 in cur;
        assert node3 in cur && node4 in cur;
        Relink(node1, node2, node3, node4, dpbHead, cur, p, q);
        cur' := MoveUp(cur, p, q);
        MoveUpHead(cur, p, q);
        assert Fields(cur) == v;
      }
    } else {
      FirstIsHere(v, p, expected);
      MoveUpNone(cur, p);
    }
  }

  // The state of the relinking loop: cur is the list as linked now, its first p
  // nodes are in their final places, and goal is the outcome aimed at.
  ghost predicate Relinking(dpbHead: DpbInfo, list: seq<DpbInfo>, cur: seq<DpbInfo>,
                            p: int, expected: int, goal: seq<Field>)
    reads Nodes(cur), dpbHead
    reads if Live(cur) then PicSet(Pics(cur)) else {}
  {
    && Distinct(cur) && Live(cur) && Chained(dpbHead.prevDpb, cur)
    && dpbHead !in cur && (forall n :: n in cur ==> n in list)
    && Permutation(cur, list)
    && 0 <= p <= |cur|
    && Fields(cur)[..p] + Alternate(Fields(cur)[p..], expected) == goal
  }

  // The body of the relinking loop.
  method AlternateTurn(node1: DpbInfo, node2: DpbInfo, expected: int, dpbHead: DpbInfo,
                       ghost list: seq<DpbInfo>, ghost cur: seq<DpbInfo>, ghost p: int, ghost goal: seq<Field>)
    returns (found: bool, expected': int, ghost cur': seq<DpbInfo>)
    requires Relinking(dpbHead, list, cur, p, expected, goal) && p < |cur|
    requires node1 == (if p == 0 then dpbHead else cur[p - 1]) && node2 == cur[p]
    modifies Nodes(list)`prevDpb, dpbHead`prevDpb
    ensures found ==> Relinking(dpbHead, list, cur', p + 1, expected', goal)
    ensures found ==> |cur'| == |cur| && node1.prevDpb == cur'[p] && cur'[p].prevDpb == Nth(cur', p + 1)
    ensures !found ==> Relinking(dpbHead, list, cur', |cur'|, expected', goal)
  {
    hide Distinct, Fields, Permutation, Pics, Views, Alternate, FirstOf, MoveUp;
    ghost var v := Fields(cur);
    ghost var q;
    found, q, cur' := BringUp(node1, node2, expected, dpbHead, list, cur, p);
    expected' := expected;
    if found {
      AlternateStep(v, p, q, expected);
      MoveUpFields(cur, p, q);
      MoveUpPermutes(cur, p, q);
      PermutationAll(cur', cur);
      PermutationTrans(cur', cur, list);
      expected' := Opposite(node1.prevDpb.picBuf.fieldType);
    } else {
      AlternateEnd(v, p, expected);
      AlternateEnd(v, |v|, expected);
    }
  }

  lemma RelinkingDone(dpbHead: DpbInfo, list: seq<DpbInfo>, cur: seq<DpbInfo>, expected: int, goal: seq<Field>)
    requires Relinking(dpbHead, list, cur, |cur|, expected, goal)
    ensures Distinct(cur) && Live(cur) && Chained(dpbHead.prevDpb, cur)
    ensures Permutation(cur, list) && Fields(cur) == goal
  {
    hide Alternate, FirstOf, Fields, Pics, Views;
    AlternateEnd(Fields(cur), |cur|, expected);
  }

  lemma RelinkingStart(dpbHead: DpbInfo, list: seq<DpbInfo>, first: int)
    requires Distinct(list) && Live(list) && Chained(dpbHead.prevDpb, list) && dpbHead !in list
    ensures Relinking(dpbHead, list, list, 0, first, Alternate(Fields(list), first))
  {
    hide Alternate, Fields, Pics, Views;
    assert Fields(list)[0..] == Fields(list);
  }

  // The relinking loop.
  method AlternateNodes(head: DpbInfo?, first: int, ghost list: seq<DpbInfo>)
    returns (newHead: DpbInfo?, ghost cur: seq<DpbInfo>)
    requires Distinct(list) && Live(list) && Chained(head, list)
    modifies Nodes(list)`prevDpb
    ensures Distinct(cur) && Live(cur) && Chained(newHead, cur)
    ensures Permutation(cur, list) && forall n :: n in cur <==> n in list
    ensures Fields(cur) == Alternate(old(Fields(list)), first)
  {
    hide Nodes, PicSet, Pics, Views, Alternate, Relinking, Distinct, Permutation;
    ghost var goal := Alternate(Fields(list), first);
    var expected := first;
    var dpbHead := new DpbInfo();
    dpbHead.prevDpb := head;
    cur := list;
    assert Fields(list) == old(Fields(list));
    RelinkingStart(dpbHead, list, first);
    ghost var p := 0;
    var node1 := dpbHead;
    var node2 := node1.prevDpb;
    while node2 != null
      invariant Relinking(dpbHead, list, cur, p, expected, goal) && 0 <= p <= |cur|
      invariant node1 == (if p == 0 then dpbHead else cur[p - 1]) && node2 == Nth(cur, p)
      decreases |cur| - p
    {
      var found;
      found, expected, cur := AlternateTurn(node1, node2, expected, dpbHead, list, cur, p, goal);
      if !found {
        p := |cur|;
        break;
      }
      node1 := node1.prevDpb;
      node2 := node1.prevDpb;
      p := p + 1;
    }
    RelinkingDone(dpbHead, list, cur, expected, goal);
    PermutationAll(cur, list);
    newHead := dpbHead.prevDpb;
  }

  // A sort: the exchange loops, then the pairing pass. mid is the list between
  // the two.
  method SortNodes(order: Order, k: Key, first: int, head: DpbInfo?, ghost list: seq<DpbInfo>)
    returns (ret: int, ghost mid: seq<Field>)
    requires Distinct(list) && Live(list) && Chained(head, list)
    modifies Nodes(list)`picBuf
    ensures ret == if list == [] then -1 else 0
    ensures Live(list) && mid == Exchanged(order, old(Fields(list))) && Permutation(mid, old(Fields(list)))
    ensures old(AllComparable(order, Fields(list))) ==> Sorted(order, mid)
    ensures Fields(list) == PairPass(k, first, mid, 0) && Permutation(Fields(list), old(Fields(list)))
    ensures PicSet(Pics(list)) == old(PicSet(Pics(list)))
  {
    hide Nodes, PicSet, Pics, Views, AllComparable, Sorted, PairPass;
    mid := Fields(list);
    ghost var start := Fields(list);
    PicsInFields(list);
    if head == null {
      PairPassUnfold(k, first, mid, 0);
      assert mid == [];
      SortedEmpty(order);
      return -1, mid;
    }
    Exchange(order, head, list);
    mid := Fields(list);
    PairUp(k, first, head, list);
    PairPassPermutes(k, first, mid, 0);
    PermutationTrans(Fields(list), mid, start);
    PicsInPermute(Fields(list), start);
    PicsInFields(list);
    ret := 0;
  }

  lemma SortedEmpty(order: Order)
    ensures Sorted(order, [])
  {
  }

  // The walk that counts positions where frame_num changes.
  method CountChanges(head: DpbInfo?, ghost list: seq<DpbInfo>) returns (count: int)
    requires Live(list) && Chained(head, list)
    ensures count == Runs(Keys(FrameNumKey, Fields(list)))
  {
    hide Pics, Views;
    count := 0;
    ghost var g := Keys(FrameNumKey, Fields(list));
    var node := head;
    if node != null {
      count := count + 1;
      var prevFrameNum := node.picBuf.frameNum;
      node := node.prevDpb;
      ghost var k := 1;
      assert g[..1] == [g[0]];
      while node != null
        invariant 1 <= k <= |list| && node == Nth(list, k)
        invariant prevFrameNum == g[k - 1] && count == Runs(g[..k])
        decreases |list| - k
      {
        var frameNum := node.picBuf.frameNum;
        if frameNum != prevFrameNum {
          count := count + 1;
        }
        prevFrameNum := node.picBuf.frameNum;
        node := node.prevDpb;
        k := k + 1;
        assert g[..k][..k - 1] == g[..k - 1];
      }
      assert g[..k] == g;
    }
  }
}
