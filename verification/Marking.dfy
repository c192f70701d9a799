// What the deletions leave of a list: section 8.2.5.3 (sliding window) and
// section 8.2.5.4.4 (maximum long-term frame index) of H.264.
module Marking {
  import opened Pictures
  import opened FieldOrder

  // How many nodes survive the deletion of the frame at the end of a list: its
  // last two fields when they have one frame_num, otherwise its last field.
  function KeepLen(s: seq<Field>): (n: nat)
    ensures n <= |s|
    ensures s != [] ==> n < |s|
  {
    if |s| < 2 then 0
    else if s[|s| - 1].frameNum == s[|s| - 2].frameNum then |s| - 2
    else |s| - 1
  }

  // The first loop of the long-term trimming.
  function DropLeading(s: seq<Field>, max: int): (r: seq<Field>)
    ensures r != [] ==> r[0].longIdx <= max
  {
    if s != [] && s[0].longIdx > max then DropLeading(s[1..], max) else s
  }

  // The second loop, entered with a field s[0] that stays. Unlinking s[1] makes
  // s[2] the next field that stays, whatever its index.
  function TrimRest(s: seq<Field>, max: int): (r: seq<Field>)
    requires s != []
    ensures r != [] && r[0] == s[0]
    decreases |s|
  {
    if |s| == 1 then s
    else if s[1].longIdx <= max then [s[0]] + TrimRest(s[1..], max)
    else if |s| == 2 then [s[0]]
    else [s[0]] + TrimRest(s[2..], max)
  }

  function Trim(s: seq<Field>, max: int): seq<Field> {
    var t := DropLeading(s, max);
    if t == [] then [] else TrimRest(t, max)
  }

  // One turn of the second loop at position p.
  lemma TrimStep(v: seq<Field>, p: nat, max: int)
    requires p + 1 < |v|
    ensures var w := if v[p + 1].longIdx > max then Without(v, p + 1) else v;
            v[..p] + TrimRest(v[p..], max) == if p + 1 < |w| then w[..p + 1] + TrimRest(w[p + 1..], max) else w
  {
    var u := v[p..];
    assert v[..p] + [v[p]] == v[..p + 1];
    if v[p + 1].longIdx > max {
      var w := Without(v, p + 1);
      assert w[..p + 1] == v[..p + 1] && w[p + 1..] == v[p + 2..];
      if p + 2 < |v| {
        assert u[2..] == v[p + 2..];
      } else {
        assert w == v[..p] + [v[p]];
      }
    } else {
      assert u[1..] == v[p + 1..];
    }
  }

  lemma TrimLast(v: seq<Field>, p: nat, max: int)
    requires p + 1 == |v|
    ensures v[..p] + TrimRest(v[p..], max) == v
  {
  }

  // The fields the standard keeps.
  function Within(s: seq<Field>, max: int): (r: seq<Field>)
    ensures |r| <= |s|
    ensures forall i :: 0 <= i < |r| ==> r[i].longIdx <= max
  {
    if s == [] then []
    else if s[0].longIdx <= max then [s[0]] + Within(s[1..], max)
    else Within(s[1..], max)
  }

  lemma {:induction false} DropLeadingKeeps(s: seq<Field>, max: int)
    ensures Within(DropLeading(s, max), max) == Within(s, max)
  {
    if s != [] && s[0].longIdx > max {
      DropLeadingKeeps(s[1..], max);
    }
  }

  lemma {:induction false} TrimRestKeeps(s: seq<Field>, max: int)
    requires s != []
    ensures Within(TrimRest(s, max), max) == Within(s, max)
    decreases |s|
  {
    if |s| > 1 {
      var from := if s[1].longIdx <= max then 1 else 2;
      assert Within(s, max) == Within([s[0]], max) + Within(s[from..], max) by {
        assert s[1..][1..] == s[2..];
      }
      if from < |s| {
        TrimRestKeeps(s[from..], max);
        assert TrimRest(s, max)[1..] == TrimRest(s[from..], max);
      }
    }
  }

  // No field within the maximum is lost, and those kept stay in order.
  lemma TrimKeepsWithin(s: seq<Field>, max: int)
    ensures Within(Trim(s, max), max) == Within(s, max)
  {
    DropLeadingKeeps(s, max);
    var t := DropLeading(s, max);
    if t != [] {
      TrimRestKeeps(t, max);
    }
  }

  // ---- which fields survive ----

  // How many fields in a row, ending just before i, are above the maximum.
  function AboveBefore(s: seq<Field>, i: nat, max: int): (n: nat)
    requires i <= |s|
    ensures n <= i
  {
    if i == 0 || s[i - 1].longIdx <= max then 0 else 1 + AboveBefore(s, i - 1, max)
  }

  // A field above the maximum is stepped over when an odd number of such fields stand
  // between it and the last field within the maximum.
  predicate Survives(s: seq<Field>, i: nat, max: int)
    requires i < |s|
  {
    s[i].longIdx <= max || (AboveBefore(s, i, max) < i && AboveBefore(s, i, max) % 2 == 1)
  }

  function Survivors(s: seq<Field>, i: nat, max: int): seq<Field>
    requires i <= |s|
    decreases |s| - i
  {
    if i == |s| then []
    else (if Survives(s, i, max) then [s[i]] else []) + Survivors(s, i + 1, max)
  }

  lemma TrimRestFrom(s: seq<Field>, i: nat, max: int)
    requires i < |s|
    ensures TrimRest(s[i..], max)
            == if i + 1 < |s| && s[i + 1].longIdx <= max then [s[i]] + TrimRest(s[i + 1..], max)
               else if i + 2 < |s| then [s[i]] + TrimRest(s[i + 2..], max)
               else [s[i]]
  {
    var u := s[i..];
    assert i + 1 < |s| ==> u[1..] == s[i + 1..];
    assert i + 2 < |s| ==> u[2..] == s[i + 2..];
  }

  // The loop stands at a field that stays.
  lemma {:induction false} RestSurvivors(s: seq<Field>, i: nat, max: int)
    requires i < |s| && AboveBefore(s, i + 1, max) <= i && AboveBefore(s, i + 1, max) % 2 == 0
    ensures TrimRest(s[i..], max) == [s[i]] + Survivors(s, i + 1, max)
    decreases |s| - i
  {
    hide TrimRest;
    TrimRestFrom(s, i, max);
    if i + 1 < |s| {
      if s[i + 1].longIdx <= max {
        RestSurvivors(s, i + 1, max);
      } else {
        assert Survivors(s, i + 1, max) == Survivors(s, i + 2, max);
        if i + 2 < |s| {
          assert Survives(s, i + 2, max);
          RestSurvivors(s, i + 2, max);
        }
      }
    }
  }

  lemma {:induction false} LeadingGo(s: seq<Field>, i: nat, max: int)
    requires i <= |s| && AboveBefore(s, i, max) == i
    ensures (if DropLeading(s[i..], max) == [] then [] else TrimRest(DropLeading(s[i..], max), max))
            == Survivors(s, i, max)
    decreases |s| - i
  {
    if i < |s| {
      if s[i].longIdx > max {
        assert s[i..][1..] == s[i + 1..];
        LeadingGo(s, i + 1, max);
      } else {
        RestSurvivors(s, i, max);
      }
    }
  }

  // Exactly which fields the two loops leave, on every list.
  lemma TrimSurvivors(s: seq<Field>, max: int)
    ensures Trim(s, max) == Survivors(s, 0, max)
  {
    assert s[0..] == s;
    LeadingGo(s, 0, max);
  }

  ghost predicate NoAdjacentAbove(s: seq<Field>, max: int) {
    forall i :: 0 <= i && i + 1 < |s| ==> s[i].longIdx <= max || s[i + 1].longIdx <= max
  }

  // Two neighbours above the maximum occur only in the run the list starts with.
  ghost predicate Trimmable(s: seq<Field>, max: int) {
    forall i, k :: 0 <= k <= i && i + 1 < |s| && s[i].longIdx > max && s[i + 1].longIdx > max ==> s[k].longIdx > max
  }

  lemma {:induction false} TrimRestComplete(s: seq<Field>, max: int)
    requires s != [] && s[0].longIdx <= max
    ensures TrimRest(s, max) == Within(s, max) <==> NoAdjacentAbove(s, max)
    decreases |s|
  {
    if |s| > 1 {
      var from := if s[1].longIdx <= max then 1 else 2;
      assert Within(s, max) == [s[0]] + Within(s[from..], max) by {
        assert s[1..][1..] == s[2..];
      }
      if from == |s| {
        assert NoAdjacentAbove(s, max);
      } else if s[from].longIdx <= max {
        TrimRestComplete(s[from..], max);
        assert TrimRest(s, max)[1..] == TrimRest(s[from..], max);
        assert Within(s, max)[1..] == Within(s[from..], max);
        NoAdjacentTail(s, max, from);
      } else {
        assert TrimRest(s, max)[1] == s[2];
        assert s[2] !in Within(s, max);
        assert !(s[1].longIdx <= max || s[1 + 1].longIdx <= max);
      }
    }
  }

  lemma NoAdjacentTail(s: seq<Field>, max: int, from: nat)
    requires 1 <= from <= 2 && from < |s|
    requires s[0].longIdx <= max && s[from].longIdx <= max
    ensures NoAdjacentAbove(s, max) <==> NoAdjacentAbove(s[from..], max)
  {
    var t := s[from..];
    if NoAdjacentAbove(t, max) {
      forall i | 0 <= i && i + 1 < |s|
        ensures s[i].longIdx <= max || s[i + 1].longIdx <= max
      {
        if i >= from {
          assert t[i - from].longIdx <= max || t[i - from + 1].longIdx <= max;
        }
      }
    }
    if NoAdjacentAbove(s, max) {
      forall i | 0 <= i && i + 1 < |t|
        ensures t[i].longIdx <= max || t[i + 1].longIdx <= max
      {
        assert s[i + from].longIdx <= max || s[i + from + 1].longIdx <= max;
      }
    }
  }

  // The trimming does what it is for exactly on these lists.
  lemma {:induction false} TrimComplete(s: seq<Field>, max: int)
    ensures Trim(s, max) == Within(s, max) <==> Trimmable(s, max)
  {
    if s != [] && s[0].longIdx > max {
      TrimComplete(s[1..], max);
      TrimmableTail(s, max);
    } else if s != [] {
      TrimRestComplete(s, max);
    }
  }

  lemma TrimmableTail(s: seq<Field>, max: int)
    requires s != [] && s[0].longIdx > max
    ensures Trimmable(s, max) <==> Trimmable(s[1..], max)
  {
    var t := s[1..];
    if Trimmable(t, max) {
      forall i, k | 0 <= k <= i && i + 1 < |s| && s[i].longIdx > max && s[i + 1].longIdx > max
        ensures s[k].longIdx > max
      {
        if k > 0 {
          assert t[i - 1] == s[i] && t[i - 1 + 1] == s[i + 1] && t[k - 1] == s[k];
        }
      }
    }
    if Trimmable(s, max) {
      forall i, k | 0 <= k <= i && i + 1 < |t| && t[i].longIdx > max && t[i + 1].longIdx > max
        ensures t[k].longIdx > max
      {
        assert s[i + 1] == t[i] && s[i + 1 + 1] == t[i + 1] && s[k + 1] == t[k];
      }
    }
  }

  // On a list in non-increasing index order every field above the maximum goes.
  lemma TrimDescending(s: seq<Field>, max: int)
    requires forall i, j :: 0 <= i < j < |s| ==> s[i].longIdx >= s[j].longIdx
    ensures Trim(s, max) == Within(s, max)
  {
    TrimComplete(s, max);
  }

  lemma {:induction false} WithinSplit(s: seq<Field>, max: int, k: nat)
    requires k <= |s|
    requires forall i :: 0 <= i < |s| ==> (i < k <==> s[i].longIdx <= max)
    ensures Within(s, max) == s[..k]
  {
    if s != [] {
      WithinSplit(s[1..], max, if k == 0 then 0 else k - 1);
    }
  }

  // On the order the long-term sort produces, non-decreasing, it fails as soon
  // as two fields are above the maximum and one is not.
  lemma TrimAscending(s: seq<Field>, max: int)
    requires Sorted(ByLongIdx, s)
    ensures Trim(s, max) == Within(s, max) <==> Within(s, max) == [] || |s| <= |Within(s, max)| + 1
  {
    var k := 0;
    while k < |s| && s[k].longIdx <= max
      invariant 0 <= k <= |s| && forall i :: 0 <= i < k ==> s[i].longIdx <= max
    {
      k := k + 1;
    }
    WithinSplit(s, max, k);
    TrimComplete(s, max);
    if 0 < k && k + 1 < |s| {
      assert s[k].longIdx > max && s[k + 1].longIdx > max && !(s[0].longIdx > max);
    }
  }

  // Indices 0, 5, 6 with maximum 1: the field with index 6 survives.
  lemma TrimLeavesOne(a: Field, b: Field, c: Field)
    requires a.longIdx == 0 && b.longIdx == 5 && c.longIdx == 6
    ensures Trim([a, b, c], 1) == [a, c]
    ensures Within([a, b, c], 1) == [a]
  {
    assert TrimRest([c], 1) == [c];
    assert [a, b, c][2..] == [c];
    assert Within([b, c], 1) == [] by {
      assert [b, c][1..] == [c] && [c][1..] == [];
    }
    assert [a, b, c][1..] == [b, c];
  }
}
