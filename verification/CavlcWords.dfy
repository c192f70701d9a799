// The decoder's lookups undo the encoder's words, table by table.
module CavlcWords {
  import opened BitWords
  import opened CavlcTables

  // How many indices of n bits start with a word of this size.
  function Share(n: nat, size: nat): nat
    requires size <= n && (n == 6 || n == 4 || n == 3)
  {
    match n - size case 0 => 1 case 1 => 2 case 2 => 4 case 3 => 8 case 4 => 16 case 5 => 32 case 6 => 64
  }

  // Every index of n bits that starts with the word has this entry in the row.
  predicate LooksUp(row: seq<nat>, n: nat, size: nat, code: nat, entry: nat)
    requires n == 6 || n == 4 || n == 3
  {
    && size <= n && code < Pow2(size) && (code + 1) * Share(n, size) <= |row|
    && forall i :: 0 <= i < |row| && code * Share(n, size) <= i < (code + 1) * Share(n, size) ==> row[i] == entry
  }

  // ---- total_zeros of a 4x4 block, 2 to 10 coefficients ----

  // The row of the decoder undoes the row of the encoder.
  predicate Agrees(row: seq<nat>, n: nat, sizes: seq<nat>, codes: seq<nat>, symbol: nat)
    requires n == 6 || n == 4 || n == 3
  {
    && symbol < |sizes| == |codes|
    && LooksUp(row, n, sizes[symbol], codes[symbol], 16 * sizes[symbol] + symbol)
  }

  lemma Row2Low(totalZeros: nat)
    requires totalZeros < 8
    ensures Agrees(TOTAL_ZERO_2, 6, SIZE_ZERO_2, CODE_ZERO_2, totalZeros)
  {
    match totalZeros
    case 0 => case 1 => case 2 => case 3 => case 4 => case 5 => case 6 => case 7 =>
  }

  lemma Row2(totalZeros: nat)
    requires totalZeros <= 14
    ensures Agrees(TOTAL_ZERO_2, 6, SIZE_ZERO_2, CODE_ZERO_2, totalZeros)
  {
    if totalZeros < 8 {
      Row2Low(totalZeros);
    } else {
      match totalZeros
      case 8 => case 9 => case 10 => case 11 => case 12 => case 13 => case 14 =>
    }
  }

  lemma Row3Low(totalZeros: nat)
    requires totalZeros < 7
    ensures Agrees(TOTAL_ZERO_3, 6, SIZE_ZERO_3, CODE_ZERO_3, totalZeros)
  {
    match totalZeros
    case 0 => case 1 => case 2 => case 3 => case 4 => case 5 => case 6 =>
  }

  lemma Row3(totalZeros: nat)
    requires totalZeros <= 13
    ensures Agrees(TOTAL_ZERO_3, 6, SIZE_ZERO_3, CODE_ZERO_3, totalZeros)
  {
    if totalZeros < 7 {
      Row3Low(totalZeros);
    } else {
      match totalZeros
      case 7 => case 8 => case 9 => case 10 => case 11 => case 12 => case 13 =>
    }
  }

  lemma Row4Low(totalZeros: nat)
    requires totalZeros < 7
    ensures Agrees(TOTAL_ZERO_4, 6, SIZE_ZERO_4, CODE_ZERO_4, totalZeros)
  {
    match totalZeros
    case 0 => case 1 => case 2 => case 3 => case 4 => case 5 => case 6 =>
  }

  lemma Row4(totalZeros: nat)
    requires totalZeros <= 12
    ensures Agrees(TOTAL_ZERO_4, 6, SIZE_ZERO_4, CODE_ZERO_4, totalZeros)
  {
    if totalZeros < 7 {
      Row4Low(totalZeros);
    } else {
      match totalZeros
      case 7 => case 8 => case 9 => case 10 => case 11 => case 12 =>
    }
  }

  lemma Row5(totalZeros: nat)
    requires totalZeros <= 11
    ensures Agrees(TOTAL_ZERO_5, 6, SIZE_ZERO_5, CODE_ZERO_5, totalZeros)
  {
    match totalZeros
    case 0 => case 1 => case 2 => case 3 => case 4 => case 5 => case 6 => case 7 =>
    case 8 => case 9 => case 10 => case 11 =>
  }

  lemma Row6(totalZeros: nat)
    requires totalZeros <= 10
    ensures Agrees(TOTAL_ZERO_6, 6, SIZE_ZERO_6, CODE_ZERO_6, totalZeros)
  {
    match totalZeros
    case 0 => case 1 => case 2 => case 3 => case 4 => case 5 => case 6 => case 7 => case 8 => case 9 => case 10 =>
  }

  lemma Row7(totalZeros: nat)
    requires totalZeros <= 9
    ensures Agrees(TOTAL_ZERO_7, 6, SIZE_ZERO_7, CODE_ZERO_7, totalZeros)
  {
    match totalZeros
    case 0 => case 1 => case 2 => case 3 => case 4 => case 5 => case 6 => case 7 => case 8 => case 9 =>
  }

  lemma Row8(totalZeros: nat)
    requires totalZeros <= 8
    ensures Agrees(TOTAL_ZERO_8, 6, SIZE_ZERO_8, CODE_ZERO_8, totalZeros)
  {
    match totalZeros
    case 0 => case 1 => case 2 => case 3 => case 4 => case 5 => case 6 => case 7 => case 8 =>
  }

  lemma Row9(totalZeros: nat)
    requires totalZeros <= 7
    ensures Agrees(TOTAL_ZERO_9, 6, SIZE_ZERO_9, CODE_ZERO_9, totalZeros)
  {
  }

  lemma Row10(totalZeros: nat)
    requires totalZeros <= 6
    ensures Agrees(TOTAL_ZERO_10, 6, SIZE_ZERO_10, CODE_ZERO_10, totalZeros)
  {
  }

  lemma Row11(totalZeros: nat)
    requires totalZeros <= 5
    ensures Agrees(TOTAL_ZERO_11, 4, SIZE_ZERO_11, CODE_ZERO_11, totalZeros)
  {
  }

  lemma Row12(totalZeros: nat)
    requires totalZeros <= 4
    ensures Agrees(TOTAL_ZERO_12, 4, SIZE_ZERO_12, CODE_ZERO_12, totalZeros)
  {
  }

  lemma Row13(totalZeros: nat)
    requires totalZeros <= 3
    ensures Agrees(TOTAL_ZERO_13, 4, SIZE_ZERO_13, CODE_ZERO_13, totalZeros)
  {
  }

  lemma Row14(totalZeros: nat)
    requires totalZeros <= 2
    ensures Agrees(TOTAL_ZERO_14, 4, SIZE_ZERO_14, CODE_ZERO_14, totalZeros)
  {
  }

  lemma Row15(totalZeros: nat)
    requires totalZeros <= 1
    ensures Agrees(TOTAL_ZERO_15, 4, SIZE_ZERO_15, CODE_ZERO_15, totalZeros)
  {
  }

  // ---- reading a word through a lookup ----

  lemma ShareIsPow2(n: nat, size: nat)
    requires size <= n && (n == 6 || n == 4 || n == 3)
    ensures Share(n, size) == Pow2(n - size) && Pow2(n) == if n == 6 then 64 else if n == 4 then 16 else 8
  {
    assert Pow2(1) == 2 && Pow2(2) == 4 && Pow2(3) == 8 && Pow2(4) == 16 && Pow2(5) == 32 && Pow2(6) == 64;
  }

  lemma LookupReads(row: seq<nat>, n: nat, size: nat, code: nat, entry: nat, rest: seq<bool>)
    requires (n == 6 && |row| == 64) || (n == 4 && |row| == 16) || (n == 3 && |row| == 8)
    requires LooksUp(row, n, size, code, entry)
    ensures Peek(Word(code, size) + rest, n) < |row| && row[Peek(Word(code, size) + rest, n)] == entry
  {
    hide Share, Peek, Word;
    ShareIsPow2(n, size);
    PeekRange(code, size, rest, n);
  }

  // ---- total_zeros of a 4x4 block ----

  function ZerosWord(totalCoeff: nat, totalZeros: nat): (w: seq<bool>)
    requires 1 <= totalCoeff <= 15 && totalZeros <= 16 - totalCoeff
  {
    ZeroRowAt(totalCoeff, totalZeros);
    var index := INDEX_ZERO[totalCoeff - 1] + totalZeros;
    Word(CODE_ZERO[index], SIZE_ZERO[index])
  }

  lemma ZerosWordIs(totalCoeff: nat, totalZeros: nat)
    requires 1 <= totalCoeff <= 15 && totalZeros <= 16 - totalCoeff
    ensures ZerosWord(totalCoeff, totalZeros)
            == Word(CodeZeroRow(totalCoeff)[totalZeros], SizeZeroRow(totalCoeff)[totalZeros])
  {
    hide SizeZeroRow, CodeZeroRow;
    ZeroRowAt(totalCoeff, totalZeros);
  }

  // The number of zeros and the bits read. One coefficient: a unary part and a
  // last bit; otherwise a lookup of the next six or four bits.
  function ReadZeros(totalCoeff: nat, bits: seq<bool>): (nat, nat)
    requires 1 <= totalCoeff <= 15
  {
    if totalCoeff == 1 then
      var ldz := Zeros(bits, 8);
      var used := if ldz < 8 then ldz + 1 else 8;
      if ldz != 0 then
        (2 * ldz - (if used < |bits| && bits[used] then 1 else 0), used + 1)
      else
        (0, used)
    else if totalCoeff <= 10 then
      ShareIsPow2(6, 6);
      var entry := LookupSix(totalCoeff)[Peek(bits, 6)];
      (entry % 16, entry / 16)
    else
      ShareIsPow2(4, 4);
      var entry := LookupFour(totalCoeff)[Peek(bits, 4)];
      (entry % 16, entry / 16)
  }

  lemma RowAgrees(totalCoeff: nat, totalZeros: nat)
    requires 2 <= totalCoeff <= 15 && totalZeros <= 16 - totalCoeff
    ensures totalCoeff <= 10 ==>
              Agrees(LookupSix(totalCoeff), 6, SizeZeroRow(totalCoeff), CodeZeroRow(totalCoeff), totalZeros)
    ensures totalCoeff > 10 ==>
              Agrees(LookupFour(totalCoeff), 4, SizeZeroRow(totalCoeff), CodeZeroRow(totalCoeff), totalZeros)
  {
    hide Agrees, LooksUp;
    match totalCoeff
    case 2 => Row2(totalZeros);
    case 3 => Row3(totalZeros);
    case 4 => Row4(totalZeros);
    case 5 => Row5(totalZeros);
    case 6 => Row6(totalZeros);
    case 7 => Row7(totalZeros);
    case 8 => Row8(totalZeros);
    case 9 => Row9(totalZeros);
    case 10 => Row10(totalZeros);
    case 11 => Row11(totalZeros);
    case 12 => Row12(totalZeros);
    case 13 => Row13(totalZeros);
    case 14 => Row14(totalZeros);
    case 15 => Row15(totalZeros);
  }

  // The words of the first row.
  lemma FirstRow(totalZeros: nat)
    requires totalZeros <= 15
    ensures var size, code := SIZE_ZERO_1[totalZeros], CODE_ZERO_1[totalZeros];
            if totalZeros == 0 then size == 1 && code == 1
            else if totalZeros == 15 then size == 9 && code == 1
            else size == (totalZeros + 1) / 2 + 2 && code == 2 + totalZeros % 2
  {
    match totalZeros
    case 0 => case 1 => case 2 => case 3 => case 4 => case 5 => case 6 => case 7 =>
    case 8 => case 9 => case 10 => case 11 => case 12 => case 13 => case 14 => case 15 =>
  }

  lemma ReadsFirstRow(totalZeros: nat, rest: seq<bool>)
    requires totalZeros <= 15
    ensures ReadZeros(1, Word(CODE_ZERO_1[totalZeros], SIZE_ZERO_1[totalZeros]) + rest)
            == (totalZeros, SIZE_ZERO_1[totalZeros])
  {
    hide Word;
    FirstRow(totalZeros);
    if totalZeros == 0 {
      ZerosOfOne(0, rest, 8);
    } else if totalZeros == 15 {
      LongUnary(rest);
    } else {
      UnaryAndBit((totalZeros + 1) / 2, totalZeros % 2, rest);
    }
  }

  lemma LongUnary(rest: seq<bool>)
    ensures Zeros(Word(1, 9) + rest, 8) == 8 && (Word(1, 9) + rest)[8]
  {
    ZeroWord(8);
    assert Word(1, 9) + rest == Word(0, 8) + ([true] + rest);
    ZerosAfter(8, [true] + rest, 8);
  }

  lemma UnaryAndBit(k: nat, b: nat, rest: seq<bool>)
    requires k < 8 && b < 2
    ensures Zeros(Word(2 + b, k + 2) + rest, 8) == k
    ensures (Word(2 + b, k + 2) + rest)[k + 1] == (b == 1)
  {
    assert (2 + b) / 2 == 1 && (2 + b) % 2 == b;
    assert Word(2 + b, k + 2) + rest == Word(1, k + 1) + ([b == 1] + rest);
    ZerosOfOne(k, [b == 1] + rest, 8);
  }

  // Decoding total_zeros undoes encoding it, whatever follows in the stream.
  lemma ReadsZeros(totalCoeff: nat, totalZeros: nat, rest: seq<bool>)
    requires 1 <= totalCoeff <= 15 && totalZeros <= 16 - totalCoeff
    ensures ReadZeros(totalCoeff, ZerosWord(totalCoeff, totalZeros) + rest)
            == (totalZeros, |ZerosWord(totalCoeff, totalZeros)|)
  {
    hide Word, ZerosWord, SizeZeroRow, CodeZeroRow, LookupSix, LookupFour, LooksUp, Zeros;
    ZerosWordIs(totalCoeff, totalZeros);
    var size, code := SizeZeroRow(totalCoeff)[totalZeros], CodeZeroRow(totalCoeff)[totalZeros];
    if totalCoeff == 1 {
      FirstRowIs();
      ReadsFirstRow(totalZeros, rest);
    } else {
      RowAgrees(totalCoeff, totalZeros);
      if totalCoeff <= 10 {
        LookupReads(LookupSix(totalCoeff), 6, size, code, 16 * size + totalZeros, rest);
      } else {
        LookupReads(LookupFour(totalCoeff), 4, size, code, 16 * size + totalZeros, rest);
      }
    }
  }

  lemma FirstRowIs()
    ensures SizeZeroRow(1) == SIZE_ZERO_1 && CodeZeroRow(1) == CODE_ZERO_1
  {
  }

  // Whatever the bits, with two coefficients or more the zeros read leave room in
  // 16 positions; a single coefficient can be given 16 zeros.
  lemma ZerosBound(totalCoeff: nat, bits: seq<bool>)
    requires 1 <= totalCoeff <= 15
    ensures totalCoeff + ReadZeros(totalCoeff, bits).0 <= if totalCoeff == 1 then 17 else 16
  {
    hide Peek, Zeros, LookupSix, LookupFour;
    ShareIsPow2(6, 6);
    ShareIsPow2(4, 4);
    if totalCoeff > 1 {
      if totalCoeff <= 10 {
        SixBound(totalCoeff, Peek(bits, 6));
      } else {
        FourBound(totalCoeff, Peek(bits, 4));
      }
    }
  }

  // The entries of a row leave room for its coefficients.
  predicate Bounded(row: seq<nat>, totalCoeff: nat) {
    forall i :: 0 <= i < |row| ==> totalCoeff + row[i] % 16 <= 16
  }

  lemma SixBound(totalCoeff: nat, i: nat)
    requires 2 <= totalCoeff <= 10 && i < 64
    ensures totalCoeff + LookupSix(totalCoeff)[i] % 16 <= 16
  {
    hide Bounded;
    BoundedRows();
    BoundedShortRows();
    BoundedAt(LookupSix(totalCoeff), totalCoeff, i);
  }

  lemma BoundedAt(row: seq<nat>, totalCoeff: nat, i: nat)
    requires i < |row| && Bounded(row, totalCoeff)
    ensures totalCoeff + row[i] % 16 <= 16
  {
  }

  lemma BoundedRows()
    ensures Bounded(TOTAL_ZERO_2, 2) && Bounded(TOTAL_ZERO_3, 3) && Bounded(TOTAL_ZERO_4, 4)
    ensures Bounded(TOTAL_ZERO_5, 5)
  {
  }

  lemma BoundedShortRows()
    ensures Bounded(TOTAL_ZERO_6, 6) && Bounded(TOTAL_ZERO_7, 7) && Bounded(TOTAL_ZERO_8, 8)
    ensures Bounded(TOTAL_ZERO_9, 9) && Bounded(TOTAL_ZERO_10, 10)
  {
  }

  lemma FourBound(totalCoeff: nat, i: nat)
    requires 11 <= totalCoeff <= 15 && i < 16
    ensures totalCoeff + LookupFour(totalCoeff)[i] % 16 <= 16
  {
    match totalCoeff
    case 11 => case 12 => case 13 => case 14 => case 15 =>
  }

  // ---- total_zeros of a chroma DC block ----

  function ChromaZerosWord(totalCoeff: nat, totalZeros: nat): (w: seq<bool>)
    requires 1 <= totalCoeff <= 3 && totalZeros <= 4 - totalCoeff
  {
    ChromaRowAt(totalCoeff, totalZeros);
    var index := INDEX_ZERO_CHROMA[totalCoeff - 1] + totalZeros;
    Word(CODE_ZERO_CHROMA[index], SIZE_ZERO_CHROMA[index])
  }

  function ReadChromaZeros(totalCoeff: nat, bits: seq<bool>): (nat, nat)
    requires 1 <= totalCoeff <= 3
  {
    var longest := 4 - totalCoeff;
    var ldz := Zeros(bits, longest);
    (ldz, if ldz < longest then ldz + 1 else longest)
  }

  lemma ChromaZerosBound(totalCoeff: nat, bits: seq<bool>)
    requires 1 <= totalCoeff <= 3
    ensures totalCoeff + ReadChromaZeros(totalCoeff, bits).0 <= 4
  {
  }

  lemma ChromaRow(totalCoeff: nat, totalZeros: nat)
    requires 1 <= totalCoeff <= 3 && totalZeros <= 4 - totalCoeff
    ensures SizeZeroChromaRow(totalCoeff)[totalZeros]
            == if totalZeros < 4 - totalCoeff then totalZeros + 1 else totalZeros
    ensures CodeZeroChromaRow(totalCoeff)[totalZeros]
            == if totalZeros < 4 - totalCoeff then 1 else 0
  {
    match totalCoeff case 1 => case 2 => case 3 =>
  }

  lemma ReadsChromaZeros(totalCoeff: nat, totalZeros: nat, rest: seq<bool>)
    requires 1 <= totalCoeff <= 3 && totalZeros <= 4 - totalCoeff
    ensures ReadChromaZeros(totalCoeff, ChromaZerosWord(totalCoeff, totalZeros) + rest)
            == (totalZeros, |ChromaZerosWord(totalCoeff, totalZeros)|)
  {
    hide Word, SizeZeroChromaRow, CodeZeroChromaRow;
    ChromaRowAt(totalCoeff, totalZeros);
    ChromaRow(totalCoeff, totalZeros);
    if totalZeros < 4 - totalCoeff {
      ZerosOfOne(totalZeros, rest, 4 - totalCoeff);
    } else {
      ZerosAfter(totalZeros, rest, totalZeros);
    }
  }

  // ---- run_before ----

  const MAX_ZERO_LEFT := 6

  function RunRow(zerosLeft: nat): nat
    requires zerosLeft >= 1
  {
    if zerosLeft > MAX_ZERO_LEFT then 7 else zerosLeft
  }

  function RunWord(zerosLeft: nat, run: nat): (w: seq<bool>)
    requires 1 <= zerosLeft <= 14 && run <= zerosLeft
  {
    RunRowAt(RunRow(zerosLeft), run);
    var index := INDEX_RUN[if zerosLeft > MAX_ZERO_LEFT then MAX_ZERO_LEFT else zerosLeft - 1];
    Word(CODE_RUN[index + run], SIZE_RUN[index + run])
  }

  lemma RunWordIs(zerosLeft: nat, run: nat)
    requires 1 <= zerosLeft <= 14 && run <= zerosLeft
    ensures RunWord(zerosLeft, run) == Word(CodeRunRow(RunRow(zerosLeft))[run], SizeRunRow(RunRow(zerosLeft))[run])
  {
    hide SizeRunRow, CodeRunRow;
    RunRowAt(RunRow(zerosLeft), run);
  }

  // The run and the bits read.
  function ReadRun(zerosLeft: nat, bits: seq<bool>): (nat, nat)
    requires zerosLeft >= 1
  {
    ShareIsPow2(3, 3);
    var code := Peek(bits, 3);
    if zerosLeft > MAX_ZERO_LEFT then
      if code != 0 then (7 - code, 3)
      else
        var ldz := Zeros(bits, 11);
        (4 + ldz, if ldz < 11 then ldz + 1 else 11)
    else
      RunBeforeRowAt(zerosLeft, code);
      var entry := RUN_BEFORE[code + 8 * zerosLeft];
      (entry / 4, entry % 4)
  }

  predicate RunAgrees(row: seq<nat>, sizes: seq<nat>, codes: seq<nat>, run: nat) {
    run < |sizes| == |codes| && LooksUp(row, 3, sizes[run], codes[run], 4 * run + sizes[run]) && sizes[run] < 4
  }

  lemma ShortRun(zerosLeft: nat, run: nat)
    requires 1 <= zerosLeft <= 6 && run <= zerosLeft
    ensures RunAgrees(RunBeforeRow(zerosLeft), SizeRunRow(zerosLeft), CodeRunRow(zerosLeft), run)
  {
    match zerosLeft
    case 1 => ShortRun1(run);
    case 2 => ShortRun2(run);
    case 3 => ShortRun3(run);
    case 4 => ShortRun4(run);
    case 5 => ShortRun5(run);
    case 6 => ShortRun6(run);
  }

  lemma ShortRun1(run: nat)
    requires run <= 1
    ensures RunAgrees(RUN_BEFORE_1, SIZE_RUN_1, CODE_RUN_1, run)
  {
  }

  lemma ShortRun2(run: nat)
    requires run <= 2
    ensures RunAgrees(RUN_BEFORE_2, SIZE_RUN_2, CODE_RUN_2, run)
  {
  }

  lemma ShortRun3(run: nat)
    requires run <= 3
    ensures RunAgrees(RUN_BEFORE_3, SIZE_RUN_3, CODE_RUN_3, run)
  {
  }

  lemma ShortRun4(run: nat)
    requires run <= 4
    ensures RunAgrees(RUN_BEFORE_4, SIZE_RUN_4, CODE_RUN_4, run)
  {
  }

  lemma ShortRun5(run: nat)
    requires run <= 5
    ensures RunAgrees(RUN_BEFORE_5, SIZE_RUN_5, CODE_RUN_5, run)
  {
  }

  lemma ShortRun6(run: nat)
    requires run <= 6
    ensures RunAgrees(RUN_BEFORE_6, SIZE_RUN_6, CODE_RUN_6, run)
  {
  }

  lemma LongRun(run: nat)
    requires run <= 14
    ensures SizeRunRow(7)[run] == if run < 7 then 3 else run - 3
    ensures CodeRunRow(7)[run] == if run < 7 then 7 - run else 1
  {
    match run
    case 0 => case 1 => case 2 => case 3 => case 4 => case 5 => case 6 => case 7 =>
    case 8 => case 9 => case 10 => case 11 => case 12 => case 13 => case 14 =>
  }

  // Decoding run_before with the zeros still left undoes encoding it.
  lemma ReadsRun(zerosLeft: nat, run: nat, rest: seq<bool>)
    requires 1 <= zerosLeft <= 14 && run <= zerosLeft
    ensures ReadRun(zerosLeft, RunWord(zerosLeft, run) + rest) == (run, |RunWord(zerosLeft, run)|)
  {
    hide Word, Peek, Zeros, SizeRunRow, CodeRunRow, RunBeforeRow, LooksUp, RunWord;
    var row := RunRow(zerosLeft);
    var size, code := SizeRunRow(row)[run], CodeRunRow(row)[run];
    RunWordIs(zerosLeft, run);
    if row == 7 {
      LongRun(run);
      ReadsLongRun(run, rest);
    } else {
      ShortRun(zerosLeft, run);
      LookupReads(RunBeforeRow(zerosLeft), 3, size, code, 4 * run + size, rest);
      RunBeforeRowAt(zerosLeft, Peek(Word(code, size) + rest, 3));
    }
  }

  lemma ReadsLongRun(run: nat, rest: seq<bool>)
    requires run <= 14
    ensures run < 7 ==> Peek(Word(7 - run, 3) + rest, 3) == 7 - run
    ensures run >= 7 ==> Peek(Word(1, run - 3) + rest, 3) == 0 && Zeros(Word(1, run - 3) + rest, 11) == run - 4
  {
    ShareIsPow2(3, 3);
    if run < 7 {
      PeekWord(7 - run, 3, rest);
    } else {
      ZerosOfOne(run - 4, rest, 11);
      ZeroWord(run - 4);
      var s := Word(1, run - 3) + rest;
      assert !s[0] && !s[1] && !s[2];
      assert Peek(s, 1) == 0 && Peek(s, 2) == 0;
    }
  }

  // Whatever the bits, a run read with at most six zeros left does not exceed them.
  lemma ShortRunFits(zerosLeft: nat, bits: seq<bool>)
    requires 1 <= zerosLeft <= 6
    ensures ReadRun(zerosLeft, bits).0 <= zerosLeft
  {
    hide Peek, RunBeforeRow;
    ShareIsPow2(3, 3);
    var code := Peek(bits, 3);
    RunBeforeRowAt(zerosLeft, code);
    RunEntryFits(zerosLeft, code);
  }

  lemma RunEntryFits(zerosLeft: nat, i: nat)
    requires 1 <= zerosLeft <= 6 && i < 8
    ensures RunBeforeRow(zerosLeft)[i] / 4 <= zerosLeft
  {
    match zerosLeft
    case 1 => case 2 => case 3 => case 4 => case 5 => case 6 =>
  }
}
