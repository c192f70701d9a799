// Why the double loop shared by the four sorts puts a list in order.
module ExchangeSort {
  import opened Pictures
  import opened FieldOrder

  // What the double loop still does to a list when the outer loop is at i and the
  // inner one at j.
  function ExchangeFrom(o: Order, v: seq<Field>, i: nat, j: nat): (r: seq<Field>)
    ensures |r| == |v|
    decreases |v| - i, |v| - j
  {
    if i >= |v| then v
    else if j >= |v| then ExchangeFrom(o, v, i + 1, i + 2)
    else ExchangeFrom(o, if MustSwap(o, v[i], v[j]) then Swap(v, i, j) else v, i, j + 1)
  }

  // The list the double loop leaves.
  function Exchanged(o: Order, s: seq<Field>): (r: seq<Field>)
    ensures |r| == |s|
  {
    ExchangeFrom(o, s, 0, 1)
  }

  // Positions below i hold their final field, and position i holds one that
  // may stand before every field the inner loop has passed.
  ghost predicate Progress(o: Order, v: seq<Field>, i: nat, j: nat) {
    && (forall a, b :: 0 <= a < i && a < b < |v| ==> Precedes(o, v[a], v[b]))
    && (forall b :: i < b < j && b < |v| ==> Precedes(o, v[i], v[b]))
  }

  // What the loops keep, relative to the list they started from.
  ghost predicate Stage(o: Order, start: seq<Field>, v: seq<Field>, i: nat, j: nat) {
    && Permutation(v, start) && ExchangeFrom(o, v, i, j) == Exchanged(o, start)
    && (AllComparable(o, start) ==> AllComparable(o, v) && Progress(o, v, i, j))
  }

  lemma Total(o: Order, a: Field, b: Field)
    requires Comparable(o, a) && Comparable(o, b)
    ensures !MustSwap(o, a, b) ==> Precedes(o, a, b)
    ensures MustSwap(o, a, b) ==> Precedes(o, b, a)
  {
  }

  lemma Transitive(o: Order, a: Field, b: Field, c: Field)
    requires Comparable(o, a) && Comparable(o, b) && Comparable(o, c)
    requires Precedes(o, a, b) && Precedes(o, b, c)
    ensures Precedes(o, a, c)
  {
  }

  // One turn of the inner loop.
  lemma Step(o: Order, start: seq<Field>, v: seq<Field>, i: nat, j: nat, w: seq<Field>)
    requires i < j < |v|
    requires Stage(o, start, v, i, j)
    requires w == if MustSwap(o, v[i], v[j]) then Swap(v, i, j) else v
    ensures Stage(o, start, w, i, j + 1)
  {
    SwapPermutes(v, i, j);
    if AllComparable(o, start) {
      Total(o, v[i], v[j]);
      forall b | i < b < j && w != v
        ensures Precedes(o, w[i], w[b])
      {
        Transitive(o, v[j], v[i], v[b]);
      }
    }
  }

  // The end of the inner loop.
  lemma NextRow(o: Order, start: seq<Field>, v: seq<Field>, i: nat)
    requires i < |v| && Stage(o, start, v, i, |v|)
    ensures Stage(o, start, v, i + 1, i + 2)
  {
  }

  // The start and the end of the outer loop.
  lemma Bounds(o: Order, start: seq<Field>)
    ensures Stage(o, start, start, 0, 1)
  {
  }

  lemma Done(o: Order, start: seq<Field>, v: seq<Field>)
    requires Stage(o, start, v, |v|, |v| + 1)
    ensures Permutation(v, start) && v == Exchanged(o, start)
    ensures AllComparable(o, start) ==> Sorted(o, v)
  {
  }

  lemma {:induction false} StageLeads(o: Order, start: seq<Field>, v: seq<Field>, i: nat, j: nat)
    requires Stage(o, start, v, i, j) && i < j && i <= |v|
    ensures Permutation(Exchanged(o, start), start)
    ensures AllComparable(o, start) ==> Sorted(o, Exchanged(o, start))
    decreases |v| - i, |v| - j
  {
    if i == |v| {
      Done(o, start, v);
    } else if j >= |v| {
      NextRow(o, start, v, i);
      StageLeads(o, start, v, i + 1, i + 2);
    } else {
      var w := if MustSwap(o, v[i], v[j]) then Swap(v, i, j) else v;
      Step(o, start, v, i, j, w);
      StageLeads(o, start, w, i, j + 1);
    }
  }

  // The double loop as a function puts a list in order.
  lemma ExchangedSorts(o: Order, s: seq<Field>)
    ensures Permutation(Exchanged(o, s), s)
    ensures AllComparable(o, s) ==> Sorted(o, Exchanged(o, s))
  {
    Bounds(o, s);
    StageLeads(o, s, s, 0, 1);
  }

  // ---- lists in order already ----

  lemma {:induction false} NothingToExchange(o: Order, v: seq<Field>, i: nat, j: nat)
    requires i < j && forall a, b :: 0 <= a < b < |v| ==> !MustSwap(o, v[a], v[b])
    ensures ExchangeFrom(o, v, i, j) == v
    decreases |v| - i, |v| - j
  {
    if i < |v| {
      if j >= |v| {
        NothingToExchange(o, v, i + 1, i + 2);
      } else {
        NothingToExchange(o, v, i, j + 1);
      }
    }
  }

  // The sorts by frame_num and by long-term index leave a list in order as it is,
  // fields of one frame included.
  lemma InOrderStays(o: Order, s: seq<Field>)
    requires (o.ByFrameNum? || o.ByLongIdx?) && Sorted(o, s)
    ensures Exchanged(o, s) == s
  {
    forall a, b | 0 <= a < b < |s| ensures !MustSwap(o, s[a], s[b]) {
      assert Precedes(o, s[a], s[b]);
    }
    NothingToExchange(o, s, 0, 1);
  }

  // The POC sorts exchange two fields of one POC.
  lemma EqualPocsTurn(o: Order, a: Field, b: Field)
    requires (o.ByPocL0? || o.ByPocL1?) && a.poc == b.poc
    ensures Exchanged(o, [a, b]) == [b, a]
  {
    assert Swap([a, b], 0, 1) == [b, a];
    assert ExchangeFrom(o, [b, a], 1, 2) == ExchangeFrom(o, [b, a], 2, 3) == [b, a];
    assert ExchangeFrom(o, [a, b], 0, 1) == ExchangeFrom(o, [b, a], 0, 2);
  }
}
