// Field alternation, section 8.2.4.2.5 of H.264.
module Alternation {
  import opened Pictures
  import opened FieldOrder
  import opened Pairing

  // The parity the code expects after a field of parity p.
  function Opposite(p: int): int {
    if p == TOP_FIELD then BOTTOM_FIELD else TOP_FIELD
  }

  // Position of the first field of parity p, or the length if there is none.
  function FirstOf(s: seq<Field>, p: int): (q: nat)
    ensures q <= |s|
    ensures q < |s| ==> s[q].parity == p
    ensures forall i :: 0 <= i < q ==> s[i].parity != p
  {
    if s == [] || s[0].parity == p then 0 else 1 + FirstOf(s[1..], p)
  }

  function MoveUp<T>(s: seq<T>, p: nat, q: nat): (r: seq<T>)
    requires p <= q < |s|
    ensures |r| == |s|
  {
    s[..p] + [s[q]] + s[p..q] + s[q + 1..]
  }

  // What the relinking loop does to the part of the list it has not passed.
  function Alternate(s: seq<Field>, expected: int): (r: seq<Field>)
    decreases |s|
  {
    var q := FirstOf(s, expected);
    if q == |s| then s
    else
      var t := MoveUp(s, 0, q);
      [t[0]] + Alternate(t[1..], Opposite(t[0].parity))
  }

  lemma {:induction false} FirstOfIs(s: seq<Field>, p: int, q: nat)
    requires q <= |s| && (forall i :: 0 <= i < q ==> s[i].parity != p) && (q < |s| ==> s[q].parity == p)
    ensures FirstOf(s, p) == q
  {
  }

  lemma FirstIsHere(v: seq<Field>, p: nat, expected: int)
    requires p < |v| && v[p].parity == expected
    ensures FirstOf(v[p..], expected) == 0
  {
  }

  lemma MoveUpNone<T>(s: seq<T>, p: nat)
    requires p < |s|
    ensures MoveUp(s, p, p) == s
  {
  }

  lemma MoveUpHead<T>(s: seq<T>, p: nat, q: nat)
    requires p <= q < |s|
    ensures MoveUp(s, p, q)[p] == s[q]
  {
  }

  // One turn of the relinking loop at position p, moving up the field at q.
  lemma AlternateStep(v: seq<Field>, p: nat, q: nat, expected: int)
    requires p <= q < |v| && q == p + FirstOf(v[p..], expected)
    ensures var w := MoveUp(v, p, q);
            v[..p] + Alternate(v[p..], expected)
            == w[..p + 1] + Alternate(w[p + 1..], Opposite(w[p].parity))
  {
    hide Alternate, MoveUp, FirstOf;
    var rest := v[p..q] + v[q + 1..];
    MoveUpParts(v, p, q);
    AlternateUnfold(v[p..], q - p, expected);
    assert v[p..][..q - p] + v[p..][q - p + 1..] == rest;
    var tail := Alternate(rest, Opposite(v[q].parity));
    assert v[..p] + ([v[q]] + tail) == (v[..p] + [v[q]]) + tail;
  }

  lemma MoveUpParts<T>(v: seq<T>, p: nat, q: nat)
    requires p <= q < |v|
    ensures MoveUp(v, p, q)[..p + 1] == v[..p] + [v[q]]
    ensures MoveUp(v, p, q)[p + 1..] == v[p..q] + v[q + 1..]
  {
  }

  lemma AlternateUnfold(u: seq<Field>, q: nat, expected: int)
    requires q == FirstOf(u, expected) < |u|
    ensures Alternate(u, expected) == [u[q]] + Alternate(u[..q] + u[q + 1..], Opposite(u[q].parity))
  {
    assert MoveUp(u, 0, q)[1..] == u[..q] + u[q + 1..];
  }

  lemma AlternateEnd(v: seq<Field>, p: nat, expected: int)
    requires p <= |v| && p + FirstOf(v[p..], expected) == |v|
    ensures v[..p] + Alternate(v[p..], expected) == v
  {
  }

  // The standard's rule: take fields from the two lists in turn, starting with
  // the first, and append what is left once one of them is empty.
  function Interleave(a: seq<Field>, b: seq<Field>): seq<Field>
    decreases |a| + |b|
  {
    if a == [] then b else [a[0]] + Interleave(b, a[1..])
  }

  function OfParity(s: seq<Field>, p: int): seq<Field> {
    if s == [] then []
    else if s[0].parity == p then [s[0]] + OfParity(s[1..], p)
    else OfParity(s[1..], p)
  }

  lemma {:induction false} OfParityConcat(a: seq<Field>, b: seq<Field>, p: int)
    ensures OfParity(a + b, p) == OfParity(a, p) + OfParity(b, p)
  {
    if a == [] {
      assert a + b == b;
    } else {
      assert (a + b)[1..] == a[1..] + b;
      OfParityConcat(a[1..], b, p);
    }
  }

  lemma {:induction false} OfParityNone(s: seq<Field>, p: int)
    requires forall i :: 0 <= i < |s| ==> s[i].parity != p
    ensures OfParity(s, p) == []
  {
    if s != [] {
      OfParityNone(s[1..], p);
    }
  }

  lemma {:induction false} OfParityAll(s: seq<Field>, p: int)
    requires forall i :: 0 <= i < |s| ==> s[i].parity == p
    ensures OfParity(s, p) == s
  {
    if s != [] {
      OfParityAll(s[1..], p);
    }
  }

  // Moving the first field of parity p to the front keeps both sublists.
  lemma MoveUpParity(s: seq<Field>, p: int, x: int)
    requires FirstOf(s, p) < |s|
    ensures OfParity(MoveUp(s, 0, FirstOf(s, p)), x) == OfParity(s, x)
  {
    var q := FirstOf(s, p);
    var a, f, b := s[..q], [s[q]], s[q + 1..];
    calc {
      OfParity(s, x);
      { assert s == a + (f + b); OfParityConcat(a, f + b, x); OfParityConcat(f, b, x); }
      OfParity(a, x) + (OfParity(f, x) + OfParity(b, x));
      { if x == p { OfParityNone(a, p); } else { OfParityNone(f, x); } }
      OfParity(f, x) + (OfParity(a, x) + OfParity(b, x));
      { assert MoveUp(s, 0, q) == f + (a + b); OfParityConcat(f, a + b, x); OfParityConcat(a, b, x); }
      OfParity(MoveUp(s, 0, q), x);
    }
  }

  lemma MoveUpPermutes<T>(s: seq<T>, p: nat, q: nat)
    requires p <= q < |s|
    ensures Permutation(MoveUp(s, p, q), s)
  {
    assert s == s[..p] + (s[p..q] + ([s[q]] + s[q + 1..]));
    assert MoveUp(s, p, q) == s[..p] + ([s[q]] + (s[p..q] + s[q + 1..]));
  }

  lemma {:induction false} AlternatePermutes(s: seq<Field>, expected: int)
    ensures Permutation(Alternate(s, expected), s)
    decreases |s|
  {
    var q := FirstOf(s, expected);
    if q < |s| {
      var t := MoveUp(s, 0, q);
      MoveUpPermutes(s, 0, q);
      AlternatePermutes(t[1..], Opposite(t[0].parity));
      assert t == [t[0]] + t[1..];
    }
  }

  // Each parity keeps its own order, whatever the field types are.
  lemma {:induction false} AlternateKeepsParityOrder(s: seq<Field>, expected: int, x: int)
    ensures OfParity(Alternate(s, expected), x) == OfParity(s, x)
    decreases |s|
  {
    var q := FirstOf(s, expected);
    if q < |s| {
      var t := MoveUp(s, 0, q);
      MoveUpParity(s, expected, x);
      AlternateKeepsParityOrder(t[1..], Opposite(t[0].parity), x);
      assert t == [t[0]] + t[1..];
      OfParityConcat([t[0]], t[1..], x);
      OfParityConcat([t[0]], Alternate(t[1..], Opposite(t[0].parity)), x);
    }
  }

  // The loop computes the standard's interleaving.
  lemma {:induction false} AlternateIsInterleave(s: seq<Field>, first: int)
    requires AllParities(s) && IsParity(first)
    ensures Alternate(s, first) == Interleave(OfParity(s, first), OfParity(s, Opposite(first)))
    decreases |s|
  {
    var q := FirstOf(s, first);
    if q == |s| {
      OfParityNone(s, first);
      OfParityAll(s, Opposite(first));
    } else {
      var t := MoveUp(s, 0, q);
      MoveUpParity(s, first, first);
      MoveUpParity(s, first, Opposite(first));
      MoveUpPermutes(s, 0, q);
      assert t == [t[0]] + t[1..];
      forall i | 0 <= i < |t[1..]|
        ensures IsParity(t[1..][i].parity)
      {
        PermutationMember(t, s, i + 1);
      }
      AlternateIsInterleave(t[1..], Opposite(first));
      assert Opposite(Opposite(first)) == first;
    }
  }

  lemma {:induction false} InterleaveLength(a: seq<Field>, b: seq<Field>)
    ensures |Interleave(a, b)| == |a| + |b|
    decreases |a| + |b|
  {
    if a != [] {
      InterleaveLength(b, a[1..]);
    }
  }

  lemma InterleaveNext(a: seq<Field>, b: seq<Field>, i: nat)
    requires a != [] && i < |a| + |b|
    ensures |Interleave(a, b)| == |a| + |b| && |Interleave(b, a[1..])| == |a| + |b| - 1
    ensures Interleave(a, b)[i] == if i == 0 then a[0] else Interleave(b, a[1..])[i - 1]
  {
    InterleaveLength(a, b);
    InterleaveLength(b, a[1..]);
  }

  lemma {:induction false} InterleaveAt(a: seq<Field>, b: seq<Field>, i: nat)
    requires i < |a| + |b|
    ensures |Interleave(a, b)| == |a| + |b|
    ensures i < 2 * |a| && i < 2 * |b| ==> Interleave(a, b)[i] == if i % 2 == 0 then a[i / 2] else b[i / 2]
    ensures 2 * |a| <= i && |a| <= |b| ==> Interleave(a, b)[i] == b[i - |a|]
    ensures 2 * |b| <= i && |a| > |b| ==> Interleave(a, b)[i] == a[i - |b|]
    decreases |a| + |b|
  {
    if a != [] {
      InterleaveNext(a, b, i);
      if i > 0 {
        hide Interleave;
        InterleaveAt(b, a[1..], i - 1);
        var h := i / 2;
        if i == 2 * h {
          assert (i - 1) % 2 == 1 && (i - 1) / 2 == h - 1;
        } else {
          assert i == 2 * h + 1 && (i - 1) % 2 == 0 && (i - 1) / 2 == h;
        }
      }
    }
  }

  lemma {:induction false} OfParityIs(s: seq<Field>, p: int, i: nat)
    requires i < |OfParity(s, p)|
    ensures OfParity(s, p)[i].parity == p
  {
    if s[0].parity == p {
      if i > 0 {
        OfParityIs(s[1..], p, i - 1);
      }
    } else {
      OfParityIs(s[1..], p, i);
    }
  }

  // Position by position: while both parities last, the even places hold the fields of
  // the requested parity and the odd ones the others, each in their old order; what is
  // left of the longer one follows.
  lemma AlternateAt(s: seq<Field>, first: int, i: nat)
    requires (first == TOP_FIELD || first == BOTTOM_FIELD) && i < |s|
    requires forall k :: 0 <= k < |s| ==> s[k].parity == TOP_FIELD || s[k].parity == BOTTOM_FIELD
    ensures var other := if first == TOP_FIELD then BOTTOM_FIELD else TOP_FIELD;
            var a, b, r := OfParity(s, first), OfParity(s, other), Alternate(s, first);
            && |r| == |a| + |b| == |s|
            && (i < 2 * |a| && i < 2 * |b| ==>
                  r[i] == (if i % 2 == 0 then a[i / 2] else b[i / 2])
                  && r[i].parity == if i % 2 == 0 then first else other)
            && (2 * |a| <= i && |a| <= |b| ==> r[i] == b[i - |a|])
            && (2 * |b| <= i && |a| > |b| ==> r[i] == a[i - |b|])
  {
    hide Interleave, OfParity, Alternate;
    var a, b := OfParity(s, first), OfParity(s, Opposite(first));
    AlternateIsInterleave(s, first);
    AlternatePermutes(s, first);
    PermutationAll(Alternate(s, first), s);
    InterleaveLength(a, b);
    InterleaveAt(a, b, i);
    if i < 2 * |a| && i < 2 * |b| {
      OfParityIs(s, first, i / 2);
      OfParityIs(s, Opposite(first), i / 2);
    }
  }
}
