// The frame count: fields are counted by walking a sorted list and counting
// the positions where frame_num changes.
module Counting {
  import opened Pictures
  import opened FieldOrder
  import opened Pairing

  function Keys(k: Key, s: seq<Field>): (r: seq<int>)
    ensures |r| == |s|
    ensures forall i :: 0 <= i < |s| ==> r[i] == KeyOf(k, s[i])
  {
    seq(|s|, i requires 0 <= i < |s| => KeyOf(k, s[i]))
  }

  function Values(s: seq<int>): set<int> {
    set x | x in s
  }

  // The frames a list has fields of.
  function Frames(k: Key, s: seq<Field>): set<int> {
    Values(Keys(k, s))
  }

  // Number of maximal runs of equal values: what the counting loop returns.
  function Runs(s: seq<int>): (n: nat)
    ensures n <= |s|
  {
    if |s| < 2 then |s|
    else Runs(s[..|s| - 1]) + if s[|s| - 1] != s[|s| - 2] then 1 else 0
  }

  // Equal values stand together.
  ghost predicate Grouped(s: seq<int>) {
    forall i, j, k :: 0 <= i <= j <= k < |s| && s[i] == s[k] ==> s[j] == s[i]
  }

  lemma ValuesSnoc(t: seq<int>, x: int)
    ensures Values(t + [x]) == Values(t) + {x}
  {
  }

  lemma GroupedLast(s: seq<int>)
    requires Grouped(s) && |s| > 1
    ensures s[|s| - 1] in Values(s[..|s| - 1]) <==> s[|s| - 1] == s[|s| - 2]
    ensures Grouped(s[..|s| - 1])
  {
    var n := |s| - 1;
    assert s[n - 1] == s[..n][n - 1];
    if s[n] in s[..n] {
      var i :| 0 <= i < n && s[..n][i] == s[n];
      assert s[i] == s[n] && s[n - 1] == s[i];
    }
  }

  lemma {:induction false} RunsOfGrouped(s: seq<int>)
    requires Grouped(s)
    ensures Runs(s) == |Values(s)|
  {
    if |s| == 1 {
      assert Values(s) == {s[0]};
    } else if |s| > 1 {
      hide Grouped, Values;
      var n := |s| - 1;
      GroupedLast(s);
      RunsOfGrouped(s[..n]);
      ValuesSnoc(s[..n], s[n]);
      assert s == s[..n] + [s[n]];
    }
  }

  // Each step to a new f is a step to a new g.
  ghost predicate StepsDiffer(f: seq<int>, g: seq<int>)
    requires |f| == |g|
  {
    forall i :: 0 <= i && i + 1 < |f| && f[i] != f[i + 1] ==> g[i] != g[i + 1]
  }

  // Counting by g instead of by f, where f determines g.
  lemma {:induction false} RunsCompare(f: seq<int>, g: seq<int>)
    requires |f| == |g|
    requires forall i :: 0 <= i && i + 1 < |f| && f[i] == f[i + 1] ==> g[i] == g[i + 1]
    ensures Runs(g) <= Runs(f)
    ensures Runs(g) == Runs(f) <==> StepsDiffer(f, g)
  {
    if |f| > 1 {
      var n := |f| - 1;
      RunsCompare(f[..n], g[..n]);
      assert f[n - 1 + 1] == f[n];
    }
  }

  lemma FramesPermute(k: Key, a: seq<Field>, b: seq<Field>)
    requires Permutation(a, b)
    ensures Frames(k, a) == Frames(k, b)
  {
    FramesSubset(k, a, b);
    FramesSubset(k, b, a);
  }

  lemma FramesSubset(k: Key, a: seq<Field>, b: seq<Field>)
    requires Permutation(a, b)
    ensures Frames(k, a) <= Frames(k, b)
  {
    forall x | x in Frames(k, a)
      ensures x in Frames(k, b)
    {
      var i :| 0 <= i < |a| && Keys(k, a)[i] == x;
      PermutationMember(a, b, i);
      var j :| 0 <= j < |b| && b[j] == a[i];
      assert Keys(k, b)[j] == x;
    }
  }

  ghost predicate FrameNumsIn(s: seq<Field>, max: int) {
    forall i :: 0 <= i < |s| ==> 0 <= s[i].frameNum < max
  }

  // FrameNumWrap tells frame_nums apart, whatever the current frame_num is.
  lemma WrapInjective(a: int, b: int, cur: int, max: int)
    requires 0 <= a < max && 0 <= b < max
    ensures Wrap(a, cur, max) == Wrap(b, cur, max) <==> a == b
  {
  }

  lemma CountByFrameNum(s: seq<Field>, cur: int, max: int)
    requires Sorted(ByFrameNum(cur, max), s) && FrameNumsIn(s, max)
    ensures Runs(Keys(FrameNumKey, s)) == |Frames(FrameNumKey, s)|
  {
    var g := Keys(FrameNumKey, s);
    forall i, j, k | 0 <= i <= j <= k < |g| && g[i] == g[k]
      ensures g[j] == g[i]
    {
      assert i < j ==> Precedes(ByFrameNum(cur, max), s[i], s[j]);
      assert j < k ==> Precedes(ByFrameNum(cur, max), s[j], s[k]);
      WrapInjective(g[i], g[j], cur, max);
    }
    RunsOfGrouped(g);
  }

  lemma CountByLongIdx(s: seq<Field>)
    requires Sorted(ByLongIdx, s)
    ensures Runs(Keys(LongIdxKey, s)) == |Frames(LongIdxKey, s)|
  {
    var g := Keys(LongIdxKey, s);
    forall i, j, k | 0 <= i <= j <= k < |g| && g[i] == g[k]
      ensures g[j] == g[i]
    {
      assert i < j ==> Precedes(ByLongIdx, s[i], s[j]);
      assert j < k ==> Precedes(ByLongIdx, s[j], s[k]);
    }
    RunsOfGrouped(g);
  }
}
