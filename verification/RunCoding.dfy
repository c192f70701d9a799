// Where the coefficients of a block lie: the encoder writes total_zeros and the
// run before each coefficient, the decoder rebuilds the map of positions
// (section 9.2.3 of H.264).
module RunCoding {
  import opened BitWords
  import opened CavlcWords

  // 4x4 blocks with and without their DC coefficient, and chroma DC blocks.
  datatype Kind = Sixteen | Fifteen | ChromaDc {
    function MaxCoeffs(): nat {
      match this case Sixteen => 16 case Fifteen => 15 case ChromaDc => 4
    }

    // How many coefficients coeff_token can announce, whatever the block.
    function TokenMax(): nat { if ChromaDc? then 4 else 16 }

    // Positions of a block without DC start at 1 in the decoder's map.
    function Offset(): nat { if Fifteen? then 1 else 0 }
  }

  function Sum(runs: seq<nat>): nat {
    if runs == [] then 0 else Sum(runs[..|runs| - 1]) + runs[|runs| - 1]
  }

  // ---- encoder ----

  // The run of zeros before each coefficient, from the map of coefficients; run
  // counts the zeros passed since the last one.
  function ZeroRuns(present: seq<bool>, run: nat): (runs: seq<nat>)
    decreases |present|
  {
    if present == [] then []
    else if present[0] then [run] + ZeroRuns(present[1..], 0)
    else ZeroRuns(present[1..], run + 1)
  }

  // run_before from coefficient k down to 1, while zeros are left.
  function EncodeRuns(runs: seq<nat>, k: nat, zerosLeft: nat): (bits: seq<bool>)
    requires k < |runs| && zerosLeft == Sum(runs[..k + 1]) && k + zerosLeft <= 15
  {
    if k == 0 || zerosLeft == 0 then []
    else
      assert runs[..k + 1][..k] == runs[..k];
      RunWord(zerosLeft, runs[k]) + EncodeRuns(runs, k - 1, zerosLeft - runs[k])
  }

  predicate Fits(kind: Kind, runs: seq<nat>) {
    |runs| + Sum(runs) <= kind.MaxCoeffs()
  }

  // The word for total_zeros, if one is written.
  function CountWord(kind: Kind, runs: seq<nat>): seq<bool>
    requires Fits(kind, runs) && runs != []
  {
    if |runs| == kind.MaxCoeffs() then []
    else if kind.ChromaDc? then ChromaZerosWord(|runs|, Sum(runs))
    else ZerosWord(|runs|, Sum(runs))
  }

  function EncodeBlock(kind: Kind, runs: seq<nat>): (bits: seq<bool>)
    requires Fits(kind, runs)
  {
    if runs == [] then []
    else
      assert runs[..|runs|] == runs;
      CountWord(kind, runs) + EncodeRuns(runs, |runs| - 1, Sum(runs))
  }

  // ---- decoder ----

  datatype Decoded<T> = Bad | Decoded(value: T, used: nat)

  function Rest(bits: seq<bool>, used: nat): seq<bool> {
    if used <= |bits| then bits[used..] else []
  }

  lemma Skip(word: seq<bool>, more: seq<bool>, rest: seq<bool>)
    ensures (word + more) + rest == word + (more + rest)
    ensures Rest(word + (more + rest), |word|) == more + rest
  {
  }

  // The map is a 16-bit word, as the set of its one bits: a bit set above it is
  // lost.
  const MAP_BITS := 16

  function SetBit(word: set<int>, pos: int): set<int> {
    if 0 <= pos < MAP_BITS then word + {pos} else word
  }

  lemma SetBitInWord(word: set<int>, pos: int)
    requires 0 <= pos < MAP_BITS
    ensures SetBit(word, pos) == word + {pos}
  {
  }

  // Place coefficient k at pos and the ones before it below, until no zeros are
  // left; a run longer than the zeros left is an error.
  function DecodeRuns(k: nat, zerosLeft: nat, pos: int, bits: seq<bool>): Decoded<set<int>> {
    if k > 0 && zerosLeft > 0 then
      var (run, used) := ReadRun(zerosLeft, bits);
      if run > zerosLeft then Bad
      else
        match DecodeRuns(k - 1, zerosLeft - run, pos - run - 1, Rest(bits, used))
        case Bad => Bad
        case Decoded(below, more) => Decoded(SetBit(below, pos), used + more)
    else
      Decoded(Fill(k + 1, pos), 0)
  }

  // n positions down from pos.
  function Fill(n: nat, pos: int): set<int> {
    if n == 0 then {} else SetBit(Fill(n - 1, pos - 1), pos)
  }

  // Reading total_zeros, if it was written.
  function ReadCount(kind: Kind, totalCoeff: nat, bits: seq<bool>): (nat, nat)
    requires 1 <= totalCoeff <= kind.TokenMax()
  {
    if totalCoeff >= kind.MaxCoeffs() then (0, 0)
    else if kind.ChromaDc? then ReadChromaZeros(totalCoeff, bits)
    else ReadZeros(totalCoeff, bits)
  }

  function DecodeBlock(kind: Kind, totalCoeff: nat, bits: seq<bool>): Decoded<set<int>>
    requires totalCoeff <= kind.TokenMax()
  {
    if totalCoeff == 0 then Decoded({}, 0)
    else
      var (totalZeros, used) := ReadCount(kind, totalCoeff, bits);
      var pos := totalCoeff + totalZeros - 1 + kind.Offset();
      if !kind.ChromaDc? && totalCoeff == 1 && pos > 15 then Bad
      else
        match DecodeRuns(totalCoeff - 1, totalZeros, pos, Rest(bits, used))
        case Bad => Bad
        case Decoded(marks, more) => Decoded(marks, used + more)
  }

  // ---- one block ----

  // The positions of the first k coefficients, moved up by d.
  function Marks(runs: seq<nat>, k: nat, d: nat): (marks: set<int>)
    requires k <= |runs|
  {
    if k == 0 then {} else Marks(runs, k - 1, d) + {Sum(runs[..k]) + k - 1 + d}
  }

  lemma SumNext(runs: seq<nat>, k: nat)
    requires k < |runs|
    ensures Sum(runs[..k + 1]) == Sum(runs[..k]) + runs[k]
  {
    assert runs[..k + 1][..k] == runs[..k];
  }

  // No zeros left: the remaining coefficients are next to one another.
  lemma {:induction false} NoZeros(runs: seq<nat>, k: nat, d: nat)
    requires k <= |runs| && Sum(runs[..k]) == 0 && k + d <= MAP_BITS
    ensures Fill(k, k - 1 + d) == Marks(runs, k, d)
    decreases k
  {
    if k > 0 {
      SumNext(runs, k - 1);
      NoZeros(runs, k - 1, d);
    }
  }

  lemma {:induction false} RunsRoundTrip(runs: seq<nat>, k: nat, zerosLeft: nat, d: nat, rest: seq<bool>)
    requires k < |runs| && zerosLeft == Sum(runs[..k + 1]) && k + zerosLeft + d < MAP_BITS
    ensures DecodeRuns(k, zerosLeft, k + zerosLeft + d, EncodeRuns(runs, k, zerosLeft) + rest)
            == Decoded(Marks(runs, k + 1, d), |EncodeRuns(runs, k, zerosLeft)|)
  {
    hide ReadRun, RunWord, Rest, SetBit;
    SumNext(runs, k);
    var pos := k + zerosLeft + d;
    if k > 0 && zerosLeft > 0 {
      var word := RunWord(zerosLeft, runs[k]);
      var more := EncodeRuns(runs, k - 1, zerosLeft - runs[k]);
      Skip(word, more, rest);
      ReadsRun(zerosLeft, runs[k], more + rest);
      RunsRoundTrip(runs, k - 1, zerosLeft - runs[k], d, rest);
      SetBitInWord(Marks(runs, k, d), pos);
    } else if zerosLeft == 0 {
      NoZeros(runs, k + 1, d);
      assert EncodeRuns(runs, k, zerosLeft) + rest == rest;
    } else {
      SetBitInWord({}, pos);
      assert Fill(1, pos) == Marks(runs, 1, d);
      assert EncodeRuns(runs, k, zerosLeft) + rest == rest;
    }
  }

  lemma ReadsCount(kind: Kind, runs: seq<nat>, rest: seq<bool>)
    requires Fits(kind, runs) && runs != []
    ensures ReadCount(kind, |runs|, CountWord(kind, runs) + rest) == (Sum(runs), |CountWord(kind, runs)|)
  {
    hide ReadZeros, ReadChromaZeros, ZerosWord, ChromaZerosWord, Sum;
    if |runs| == kind.MaxCoeffs() {
    } else if kind.ChromaDc? {
      ReadsChromaZeros(|runs|, Sum(runs), rest);
    } else {
      ReadsZeros(|runs|, Sum(runs), rest);
    }
  }

  // Decoding a block undoes encoding it, and takes exactly its bits.
  lemma BlockRoundTrip(kind: Kind, runs: seq<nat>, rest: seq<bool>)
    requires Fits(kind, runs)
    ensures DecodeBlock(kind, |runs|, EncodeBlock(kind, runs) + rest)
            == Decoded(Marks(runs, |runs|, kind.Offset()), |EncodeBlock(kind, runs)|)
  {
    hide ReadCount, CountWord, EncodeRuns, DecodeRuns, Sum, Rest;
    if runs != [] {
      var n, zeros := |runs|, Sum(runs);
      assert runs[..n] == runs;
      var word, more := CountWord(kind, runs), EncodeRuns(runs, n - 1, zeros);
      Skip(word, more, rest);
      ReadsCount(kind, runs, more + rest);
      RunsRoundTrip(runs, n - 1, zeros, kind.Offset(), rest);
    }
  }

  // ---- any bits ----

  lemma SetBitAbove(word: set<int>, pos: int)
    requires 0 <= pos <= MAP_BITS && forall p :: p in word ==> p < pos
    ensures |SetBit(word, pos)| == if pos == MAP_BITS then |word| else |word| + 1
    ensures forall p :: p in SetBit(word, pos) ==> p in word || (p == pos && p < MAP_BITS)
  {
  }

  lemma {:induction false} FillShape(n: nat, pos: int)
    requires n - 1 <= pos <= MAP_BITS
    ensures |Fill(n, pos)| == if pos == MAP_BITS && n > 0 then n - 1 else n
    ensures forall p :: p in Fill(n, pos) ==> pos - n < p <= pos && p < MAP_BITS
  {
    if n > 0 {
      FillShape(n - 1, pos - 1);
    }
  }

  // Whatever the bits: a map decoded from the top position down has the right
  // number of positions, unless the top one is outside the word and lost. Only
  // more than six zeros can lead to an error.
  lemma {:induction false} DecodedShape(k: nat, zerosLeft: nat, d: nat, bits: seq<bool>)
    requires k + zerosLeft + d <= MAP_BITS
    ensures var top := k + zerosLeft + d;
            var r := DecodeRuns(k, zerosLeft, top, bits);
            && (r.Decoded? ==>
                  && |r.value| == (if top == MAP_BITS then k else k + 1)
                  && forall p :: p in r.value ==> d <= p <= top && p < MAP_BITS)
            && (r.Bad? ==> k > 0 && zerosLeft > 6)
  {
    hide ReadRun, Rest, SetBit;
    var pos := k + zerosLeft + d;
    if k > 0 && zerosLeft > 0 {
      var (run, used) := ReadRun(zerosLeft, bits);
      if zerosLeft <= 6 {
        ShortRunFits(zerosLeft, bits);
      }
      if run <= zerosLeft {
        DecodedShape(k - 1, zerosLeft - run, d, Rest(bits, used));
        var below := DecodeRuns(k - 1, zerosLeft - run, pos - run - 1, Rest(bits, used));
        if below.Decoded? {
          SetBitAbove(below.value, pos);
        }
      }
    } else {
      FillShape(k + 1, pos);
    }
  }

  // One position for every coefficient, each a position of the block.
  predicate FullMap(kind: Kind, totalCoeff: nat, word: set<int>) {
    |word| == totalCoeff && forall p :: p in word ==> kind.Offset() <= p < kind.Offset() + kind.MaxCoeffs()
  }

  lemma ReadCountBound(kind: Kind, totalCoeff: nat, bits: seq<bool>)
    requires 1 <= totalCoeff <= kind.TokenMax()
    ensures totalCoeff + ReadCount(kind, totalCoeff, bits).0
            <= kind.TokenMax() + if totalCoeff == 1 && !kind.ChromaDc? then 1 else 0
  {
    hide ReadZeros, ReadChromaZeros;
    if totalCoeff < kind.MaxCoeffs() {
      if kind.ChromaDc? {
        ChromaZerosBound(totalCoeff, bits);
      } else {
        ZerosBound(totalCoeff, bits);
      }
    }
  }

  // Whatever the bits: the map has a position of the block for every coefficient
  // exactly when the coefficients and the zeros that were read fit the block.
  // When they do not, a single coefficient of a 4x4 block is an error; of more
  // than one the highest is lost.
  lemma MapExact(kind: Kind, totalCoeff: nat, bits: seq<bool>)
    requires 1 <= totalCoeff <= kind.TokenMax()
    ensures var fits := totalCoeff + ReadCount(kind, totalCoeff, bits).0 <= kind.MaxCoeffs();
            var r := DecodeBlock(kind, totalCoeff, bits);
            && (totalCoeff == 1 ==> (r.Bad? <==> !fits))
            && (r.Decoded? ==> (FullMap(kind, totalCoeff, r.value) <==> fits))
            && (r.Decoded? && !fits ==> |r.value| == totalCoeff - 1)
  {
    hide ReadCount, DecodeRuns, Rest;
    ReadCountBound(kind, totalCoeff, bits);
    var (totalZeros, used) := ReadCount(kind, totalCoeff, bits);
    if totalCoeff + totalZeros - 1 + kind.Offset() <= MAP_BITS {
      DecodedShape(totalCoeff - 1, totalZeros, kind.Offset(), Rest(bits, used));
      assert totalCoeff + totalZeros - 1 + kind.Offset() == totalCoeff - 1 + totalZeros + kind.Offset();
    }
  }

  // A failing input: a block without DC, two coefficients, fourteen zeros. The
  // first coefficient belongs at position 16, and only the second is on the map.
  lemma HighestLost()
    ensures DecodeBlock(Fifteen, 2, [false, false, false, false, false, false, true, true, true]) == Decoded({15}, 9)
  {
    hide DecodeRuns, ReadZeros;
    var bits := [false, false, false, false, false, false, true, true, true];
    LostZeros(bits);
    assert Rest(bits, 6) == [true, true, true];
    LostRun([true, true, true]);
  }

  lemma LostZeros(bits: seq<bool>)
    requires bits == [false, false, false, false, false, false, true, true, true]
    ensures ReadZeros(2, bits) == (14, 6)
  {
    var word, rest := [false, false, false, false, false, false], [true, true, true];
    assert Word(0, 6) == word by {
      ZeroWord(6);
    }
    assert bits == word + rest;
    PeekWord(0, 6, rest);
  }

  lemma LostRun(bits: seq<bool>)
    requires bits == [true, true, true]
    ensures DecodeRuns(1, 14, 16, bits) == Decoded({15}, 3)
  {
    assert Peek(bits, 1) == 1 && Peek(bits, 2) == 3 && Peek(bits, 3) == 7;
    assert ReadRun(14, bits) == (0, 3);
    assert Fill(1, 15) == {15};
    assert DecodeRuns(0, 14, 15, Rest(bits, 3)) == Decoded({15}, 0);
  }

  // ---- from maps to runs ----

  function Count(present: seq<bool>): nat {
    if present == [] then 0 else (if present[0] then 1 else 0) + Count(present[1..])
  }

  // The positions of the coefficients, moved up by d.
  function Positions(present: seq<bool>, d: int): set<int> {
    set i | 0 <= i < |present| && present[i] :: i + d
  }

  lemma PositionsNext(present: seq<bool>, d: int)
    requires present != []
    ensures Positions(present, d) == Positions(present[1..], d + 1) + if present[0] then {d} else {}
  {
    forall p | p in Positions(present, d) ensures p in Positions(present[1..], d + 1) + if present[0] then {d} else {} {
      var i :| 0 <= i < |present| && present[i] && p == i + d;
      if i > 0 {
        assert present[1..][i - 1];
      }
    }
    forall p | p in Positions(present[1..], d + 1) ensures p in Positions(present, d) {
      var i :| 0 <= i < |present| - 1 && present[1..][i] && p == i + (d + 1);
      assert present[i + 1];
    }
  }

  lemma {:induction false} SumFront(runs: seq<nat>, k: nat)
    requires 1 <= k <= |runs|
    ensures Sum(runs[..k]) == runs[0] + Sum(runs[1..][..k - 1])
  {
    SumNext(runs, k - 1);
    if k > 1 {
      SumFront(runs, k - 1);
      SumNext(runs[1..], k - 2);
    }
  }

  lemma SumSplit(runs: seq<nat>)
    requires runs != []
    ensures Sum(runs) == runs[0] + Sum(runs[1..])
  {
    SumFront(runs, |runs|);
    assert runs[..|runs|] == runs && runs[1..][..|runs| - 1] == runs[1..];
  }

  lemma {:induction false} MarksFront(runs: seq<nat>, k: nat, d: nat)
    requires 1 <= k <= |runs|
    ensures Marks(runs, k, d) == {runs[0] + d} + Marks(runs[1..], k - 1, d + runs[0] + 1)
  {
    SumFront(runs, k);
    if k > 1 {
      MarksFront(runs, k - 1, d);
    }
  }

  lemma NoMarks(d: nat, e: nat)
    ensures Marks([], 0, d) == Positions([], e)
  {
  }

  // The runs the encoder computes put every coefficient back in its place.
  lemma {:induction false} RunsOfMap(present: seq<bool>, run: nat, d: nat)
    ensures var runs := ZeroRuns(present, run);
            && Marks(runs, |runs|, d) == Positions(present, d + run)
            && |runs| == Count(present)
            && |runs| + Sum(runs) <= |present| + run
    decreases |present|
  {
    hide Positions, Marks;
    if present == [] {
      NoMarks(d, d + run);
    } else {
      PositionsNext(present, d + run);
      var runs := ZeroRuns(present, run);
      if present[0] {
        RunsOfMap(present[1..], 0, d + run + 1);
        assert runs[1..] == ZeroRuns(present[1..], 0);
        MarksFront(runs, |runs|, d);
        SumSplit(runs);
      } else {
        RunsOfMap(present[1..], run + 1, d);
      }
    }
  }

  // ---- streams ----

  // A block as the encoder is given it.
  datatype Block = Block(kind: Kind, present: seq<bool>) {
    predicate Valid() { |present| == kind.MaxCoeffs() }
  }

  lemma ValidFits(b: Block)
    requires b.Valid()
    ensures Fits(b.kind, ZeroRuns(b.present, 0)) && |ZeroRuns(b.present, 0)| == Count(b.present) <= b.kind.MaxCoeffs()
  {
    hide Marks, Positions;
    RunsOfMap(b.present, 0, 0);
  }

  function Encode(blocks: seq<Block>): (bits: seq<bool>)
    requires forall i :: 0 <= i < |blocks| ==> blocks[i].Valid()
  {
    if blocks == [] then []
    else
      ValidFits(blocks[0]);
      EncodeBlock(blocks[0].kind, ZeroRuns(blocks[0].present, 0)) + Encode(blocks[1..])
  }

  // The decoder knows the kind of each block and, from coeff_token, how many
  // coefficients it has.
  function Decode(shapes: seq<(Kind, nat)>, bits: seq<bool>): Decoded<seq<set<int>>>
    requires forall i :: 0 <= i < |shapes| ==> shapes[i].1 <= shapes[i].0.TokenMax()
  {
    if shapes == [] then Decoded([], 0)
    else
      match DecodeBlock(shapes[0].0, shapes[0].1, bits)
      case Bad => Bad
      case Decoded(first, used) =>
        match Decode(shapes[1..], Rest(bits, used))
        case Bad => Bad
        case Decoded(others, more) => Decoded([first] + others, used + more)
  }

  function Shapes(blocks: seq<Block>): (shapes: seq<(Kind, nat)>)
    ensures |shapes| == |blocks|
  {
    if blocks == [] then [] else [(blocks[0].kind, Count(blocks[0].present))] + Shapes(blocks[1..])
  }

  function Maps(blocks: seq<Block>): (maps: seq<set<int>>)
    ensures |maps| == |blocks|
  {
    if blocks == [] then [] else [Positions(blocks[0].present, blocks[0].kind.Offset())] + Maps(blocks[1..])
  }

  lemma {:induction false} ShapesFit(blocks: seq<Block>)
    requires forall i :: 0 <= i < |blocks| ==> blocks[i].Valid()
    ensures forall i :: 0 <= i < |blocks| ==> Shapes(blocks)[i].1 <= Shapes(blocks)[i].0.TokenMax()
  {
    if blocks != [] {
      ValidFits(blocks[0]);
      ShapesFit(blocks[1..]);
    }
  }

  // What is recovered is the positions themselves: 0 to 15 of a whole block, 0 to 3 of
  // a chroma DC block, and 1 to 15 for the 15 coefficients of a block without DC.
  lemma MapRoundTrip(b: Block, rest: seq<bool>)
    requires |b.present| == match b.kind case Sixteen => 16 case Fifteen => 15 case ChromaDc => 4
    ensures Fits(b.kind, ZeroRuns(b.present, 0)) && |ZeroRuns(b.present, 0)| <= b.kind.TokenMax()
    ensures var bits := EncodeBlock(b.kind, ZeroRuns(b.present, 0));
            DecodeBlock(b.kind, |ZeroRuns(b.present, 0)|, bits + rest)
            == Decoded(set i | 0 <= i < |b.present| && b.present[i] :: if b.kind == Fifteen then i + 1 else i, |bits|)
  {
    hide ZeroRuns, Count, Marks, EncodeBlock, DecodeBlock, Sum;
    ValidFits(b);
    RunsOfMap(b.present, 0, b.kind.Offset());
    BlockRoundTrip(b.kind, ZeroRuns(b.present, 0), rest);
    assert Positions(b.present, b.kind.Offset())
        == set i | 0 <= i < |b.present| && b.present[i] :: if b.kind == Fifteen then i + 1 else i;
  }

  // Coefficients at 1, 3, 4, 5 and 7 of a block of 16: three zeros before the last,
  // written as 111, and the runs 1, 0, 0, 1 from the last coefficient down, as
  // 10, 1, 1, 01. The first coefficient needs no word.
  lemma ExampleWords()
    ensures var runs := [1, 1, 0, 0, 1];
            && Fits(Sixteen, runs)
            && EncodeBlock(Sixteen, runs) == [true, true, true, true, false, true, true, false, true]
  {
    hide ZerosWord, EncodeRuns;
    var runs := [1, 1, 0, 0, 1];
    ExampleSums(runs);
    ExampleTable();
    ExampleRuns(runs);
    assert runs[..5] == runs;
  }

  lemma ExampleSums(runs: seq<nat>)
    requires runs == [1, 1, 0, 0, 1]
    ensures Sum(runs[..1]) == 1 && Sum(runs[..2]) == 2 && Sum(runs[..3]) == 2 && Sum(runs[..4]) == 2
    ensures Sum(runs[..5]) == 3
  {
    SumNext(runs, 0);
    SumNext(runs, 1);
    SumNext(runs, 2);
    SumNext(runs, 3);
    SumNext(runs, 4);
  }

  lemma ExampleRuns(runs: seq<nat>)
    requires runs == [1, 1, 0, 0, 1] && Sum(runs[..5]) == 3
    ensures EncodeRuns(runs, 4, 3) == [true, false, true, true, false, true]
  {
    hide RunWord, Sum;
    ExampleSums(runs);
    ExampleTable();
    assert EncodeRuns(runs, 1, 2) == [false, true];
    assert EncodeRuns(runs, 2, 2) == [true, false, true] && EncodeRuns(runs, 3, 2) == [true, true, false, true];
  }

  lemma ExampleTable()
    ensures ZerosWord(5, 3) == [true, true, true]
    ensures RunWord(3, 1) == [true, false] && RunWord(2, 0) == [true] && RunWord(2, 1) == [false, true]
  {
    ZerosWordIs(5, 3);
    RunWordIs(3, 1);
    RunWordIs(2, 0);
    RunWordIs(2, 1);
  }

  // For any sequence of blocks and whatever follows them: the decoder recovers
  // every map, without an error, and takes exactly the bits written.
  lemma {:induction false} StreamRoundTrip(blocks: seq<Block>, rest: seq<bool>)
    requires forall i :: 0 <= i < |blocks| ==> blocks[i].Valid()
    ensures forall i :: 0 <= i < |blocks| ==> Shapes(blocks)[i].1 <= Shapes(blocks)[i].0.TokenMax()
    ensures Decode(Shapes(blocks), Encode(blocks) + rest) == Decoded(Maps(blocks), |Encode(blocks)|)
  {
    hide ZeroRuns, Count, Positions, Marks, EncodeBlock, DecodeBlock, Sum, Rest;
    ShapesFit(blocks);
    if blocks == [] {
    } else {
      var b := blocks[0];
      var runs := ZeroRuns(b.present, 0);
      ValidFits(b);
      RunsOfMap(b.present, 0, b.kind.Offset());
      var word, more := EncodeBlock(b.kind, runs), Encode(blocks[1..]);
      Skip(word, more, rest);
      BlockRoundTrip(b.kind, runs, more + rest);
      assert Shapes(blocks)[1..] == Shapes(blocks[1..]);
      StreamRoundTrip(blocks[1..], rest);
    }
  }

  // No word of total_zeros starts another of the same table, and no word of
  // run_before another for the same number of zeros left.
  lemma WordsPrefixFree(totalCoeff: nat, a: nat, b: nat, x: seq<bool>, y: seq<bool>)
    requires 1 <= totalCoeff <= 15 && a <= 16 - totalCoeff && b <= 16 - totalCoeff
    ensures a != b ==> ZerosWord(totalCoeff, a) + x != ZerosWord(totalCoeff, b) + y
  {
    hide ReadZeros, ZerosWord;
    ReadsZeros(totalCoeff, a, x);
    ReadsZeros(totalCoeff, b, y);
  }

  lemma RunsPrefixFree(zerosLeft: nat, a: nat, b: nat, x: seq<bool>, y: seq<bool>)
    requires 1 <= zerosLeft <= 14 && a <= zerosLeft && b <= zerosLeft
    ensures a != b ==> RunWord(zerosLeft, a) + x != RunWord(zerosLeft, b) + y
  {
    hide ReadRun, RunWord;
    ReadsRun(zerosLeft, a, x);
    ReadsRun(zerosLeft, b, y);
  }
}
