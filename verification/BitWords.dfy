// Code words as bits, most significant first, and what a reader sees of them.
module BitWords {

  function Pow2(n: nat): (p: nat)
    ensures p >= 1
  {
    if n == 0 then 1 else 2 * Pow2(n - 1)
  }

  // The low size bits of a code.
  function Word(code: nat, size: nat): (w: seq<bool>)
    ensures |w| == size
  {
    if size == 0 then [] else Word(code / 2, size - 1) + [code % 2 == 1]
  }

  // The value of the next n bits; the stream is followed by zero bits.
  function Peek(bits: seq<bool>, n: nat): (v: nat)
    ensures v < Pow2(n)
  {
    if n == 0 then 0 else 2 * Peek(bits, n - 1) + if n <= |bits| && bits[n - 1] then 1 else 0
  }

  // How many of the next len bits come before the first one bit.
  function Zeros(bits: seq<bool>, len: nat): (k: nat)
    ensures k <= len
  {
    if len == 0 || (bits != [] && bits[0]) then 0
    else if bits == [] then len
    else 1 + Zeros(bits[1..], len - 1)
  }

  lemma {:induction false} PeekWord(code: nat, size: nat, rest: seq<bool>)
    requires code < Pow2(size)
    ensures Peek(Word(code, size) + rest, size) == code
  {
    if size > 0 {
      var last := [code % 2 == 1];
      assert Word(code, size) + rest == Word(code / 2, size - 1) + (last + rest);
      PeekWord(code / 2, size - 1, last + rest);
    }
  }

  lemma Doubling(c: nat, p: nat)
    ensures c * (2 * p) == 2 * (c * p)
  {
  }

  // Any n bits that start with the word have it as their leading digits.
  lemma {:induction false} PeekRange(code: nat, size: nat, rest: seq<bool>, n: nat)
    requires code < Pow2(size) && size <= n
    ensures code * Pow2(n - size) <= Peek(Word(code, size) + rest, n) < (code + 1) * Pow2(n - size)
  {
    hide Word;
    if n == size {
      PeekWord(code, size, rest);
    } else {
      PeekRange(code, size, rest, n - 1);
      Doubling(code, Pow2(n - 1 - size));
      Doubling(code + 1, Pow2(n - 1 - size));
    }
  }

  // A unary word, and one cut off at the longest length.
  lemma {:induction false} ZerosOfOne(k: nat, rest: seq<bool>, len: nat)
    requires k < len
    ensures Zeros(Word(1, k + 1) + rest, len) == k
  {
    ZeroWord(k);
    assert Word(1, k + 1) + rest == Word(0, k) + ([true] + rest);
    ZerosAfter(k, [true] + rest, len);
  }

  lemma {:induction false} ZeroWord(k: nat)
    ensures forall i :: 0 <= i < k ==> !Word(0, k)[i]
    ensures Word(1, k + 1) == Word(0, k) + [true]
  {
    if k > 0 {
      ZeroWord(k - 1);
    }
  }

  lemma {:induction false} ZerosAfter(k: nat, rest: seq<bool>, len: nat)
    requires k <= len
    ensures Zeros(Word(0, k) + rest, len) == k + Zeros(rest, len - k)
  {
    ZeroWord(k);
    if k == 0 {
      assert Word(0, k) + rest == rest;
    } else {
      ZeroWord(k - 1);
      var s := Word(0, k) + rest;
      assert s[1..] == Word(0, k - 1) + rest;
      assert !s[0];
      ZerosAfter(k - 1, rest, len - 1);
    }
  }
}
