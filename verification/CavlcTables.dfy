// The code tables of the encoder for total_zeros and run_before (Tables 9-7, 9-8,
// 9-9 and 9-10 of H.264), and the lookup tables of the decoder.
module CavlcTables {

  // ---- encoder: code word sizes and values. Each table is its rows end to end,
  // one for each total_coeff, or for each number of zeros left up to 7 ----

  const SIZE_ZERO_1: seq<nat> := [1, 3, 3, 4, 4, 5, 5, 6, 6, 7, 7, 8, 8, 9, 9, 9]
  const SIZE_ZERO_2: seq<nat> := [3, 3, 3, 3, 3, 4, 4, 4, 4, 5, 5, 6, 6, 6, 6]
  const SIZE_ZERO_3: seq<nat> := [4, 3, 3, 3, 4, 4, 3, 3, 4, 5, 5, 6, 5, 6]
  const SIZE_ZERO_4: seq<nat> := [5, 3, 4, 4, 3, 3, 3, 4, 3, 4, 5, 5, 5]
  const SIZE_ZERO_5: seq<nat> := [4, 4, 4, 3, 3, 3, 3, 3, 4, 5, 4, 5]
  const SIZE_ZERO_6: seq<nat> := [6, 5, 3, 3, 3, 3, 3, 3, 4, 3, 6]
  const SIZE_ZERO_7: seq<nat> := [6, 5, 3, 3, 3, 2, 3, 4, 3, 6]
  const SIZE_ZERO_8: seq<nat> := [6, 4, 5, 3, 2, 2, 3, 3, 6]
  const SIZE_ZERO_9: seq<nat> := [6, 6, 4, 2, 2, 3, 2, 5]
  const SIZE_ZERO_10: seq<nat> := [5, 5, 3, 2, 2, 2, 4]
  const SIZE_ZERO_11: seq<nat> := [4, 4, 3, 3, 1, 3]
  const SIZE_ZERO_12: seq<nat> := [4, 4, 2, 1, 3]
  const SIZE_ZERO_13: seq<nat> := [3, 3, 1, 2]
  const SIZE_ZERO_14: seq<nat> := [2, 2, 1]
  const SIZE_ZERO_15: seq<nat> := [1, 1]

  function SizeZeroRow(totalCoeff: nat): (row: seq<nat>)
    requires 1 <= totalCoeff <= 15
    ensures |row| == 17 - totalCoeff
  {
    match totalCoeff
    case 1 => SIZE_ZERO_1
    case 2 => SIZE_ZERO_2
    case 3 => SIZE_ZERO_3
    case 4 => SIZE_ZERO_4
    case 5 => SIZE_ZERO_5
    case 6 => SIZE_ZERO_6
    case 7 => SIZE_ZERO_7
    case 8 => SIZE_ZERO_8
    case 9 => SIZE_ZERO_9
    case 10 => SIZE_ZERO_10
    case 11 => SIZE_ZERO_11
    case 12 => SIZE_ZERO_12
    case 13 => SIZE_ZERO_13
    case 14 => SIZE_ZERO_14
    case 15 => SIZE_ZERO_15
  }

  const SIZE_ZERO: seq<nat> :=
    SizeZeroRow(1) + SizeZeroRow(2) + SizeZeroRow(3) + SizeZeroRow(4) + SizeZeroRow(5)
    + SizeZeroRow(6) + SizeZeroRow(7) + SizeZeroRow(8) + SizeZeroRow(9) + SizeZeroRow(10)
    + SizeZeroRow(11) + SizeZeroRow(12) + SizeZeroRow(13) + SizeZeroRow(14) + SizeZeroRow(15)

  const CODE_ZERO_1: seq<nat> := [1, 3, 2, 3, 2, 3, 2, 3, 2, 3, 2, 3, 2, 3, 2, 1]
  const CODE_ZERO_2: seq<nat> := [7, 6, 5, 4, 3, 5, 4, 3, 2, 3, 2, 3, 2, 1, 0]
  const CODE_ZERO_3: seq<nat> := [5, 7, 6, 5, 4, 3, 4, 3, 2, 3, 2, 1, 1, 0]
  const CODE_ZERO_4: seq<nat> := [3, 7, 5, 4, 6, 5, 4, 3, 3, 2, 2, 1, 0]
  const CODE_ZERO_5: seq<nat> := [5, 4, 3, 7, 6, 5, 4, 3, 2, 1, 1, 0]
  const CODE_ZERO_6: seq<nat> := [1, 1, 7, 6, 5, 4, 3, 2, 1, 1, 0]
  const CODE_ZERO_7: seq<nat> := [1, 1, 5, 4, 3, 3, 2, 1, 1, 0]
  const CODE_ZERO_8: seq<nat> := [1, 1, 1, 3, 3, 2, 2, 1, 0]
  const CODE_ZERO_9: seq<nat> := [1, 0, 1, 3, 2, 1, 1, 1]
  const CODE_ZERO_10: seq<nat> := [1, 0, 1, 3, 2, 1, 1]
  const CODE_ZERO_11: seq<nat> := [0, 1, 1, 2, 1, 3]
  const CODE_ZERO_12: seq<nat> := [0, 1, 1, 1, 1]
  const CODE_ZERO_13: seq<nat> := [0, 1, 1, 1]
  const CODE_ZERO_14: seq<nat> := [0, 1, 1]
  const CODE_ZERO_15: seq<nat> := [0, 1]

  function CodeZeroRow(totalCoeff: nat): (row: seq<nat>)
    requires 1 <= totalCoeff <= 15
    ensures |row| == 17 - totalCoeff
  {
    match totalCoeff
    case 1 => CODE_ZERO_1
    case 2 => CODE_ZERO_2
    case 3 => CODE_ZERO_3
    case 4 => CODE_ZERO_4
    case 5 => CODE_ZERO_5
    case 6 => CODE_ZERO_6
    case 7 => CODE_ZERO_7
    case 8 => CODE_ZERO_8
    case 9 => CODE_ZERO_9
    case 10 => CODE_ZERO_10
    case 11 => CODE_ZERO_11
    case 12 => CODE_ZERO_12
    case 13 => CODE_ZERO_13
    case 14 => CODE_ZERO_14
    case 15 => CODE_ZERO_15
  }

  const CODE_ZERO: seq<nat> :=
    CodeZeroRow(1) + CodeZeroRow(2) + CodeZeroRow(3) + CodeZeroRow(4) + CodeZeroRow(5)
    + CodeZeroRow(6) + CodeZeroRow(7) + CodeZeroRow(8) + CodeZeroRow(9) + CodeZeroRow(10)
    + CodeZeroRow(11) + CodeZeroRow(12) + CodeZeroRow(13) + CodeZeroRow(14) + CodeZeroRow(15)

  const INDEX_ZERO: seq<nat> :=
    [0, 16, 31, 45, 58, 70, 81, 91]
    + [100, 108, 115, 121, 126, 130, 133]

  const SIZE_ZERO_CHROMA_1: seq<nat> := [1, 2, 3, 3]
  const SIZE_ZERO_CHROMA_2: seq<nat> := [1, 2, 2]
  const SIZE_ZERO_CHROMA_3: seq<nat> := [1, 1]

  function SizeZeroChromaRow(totalCoeff: nat): (row: seq<nat>)
    requires 1 <= totalCoeff <= 3
    ensures |row| == 5 - totalCoeff
  {
    match totalCoeff
    case 1 => SIZE_ZERO_CHROMA_1
    case 2 => SIZE_ZERO_CHROMA_2
    case 3 => SIZE_ZERO_CHROMA_3
  }

  const SIZE_ZERO_CHROMA: seq<nat> :=
    SizeZeroChromaRow(1) + SizeZeroChromaRow(2) + SizeZeroChromaRow(3)

  const CODE_ZERO_CHROMA_1: seq<nat> := [1, 1, 1, 0]
  const CODE_ZERO_CHROMA_2: seq<nat> := [1, 1, 0]
  const CODE_ZERO_CHROMA_3: seq<nat> := [1, 0]

  function CodeZeroChromaRow(totalCoeff: nat): (row: seq<nat>)
    requires 1 <= totalCoeff <= 3
    ensures |row| == 5 - totalCoeff
  {
    match totalCoeff
    case 1 => CODE_ZERO_CHROMA_1
    case 2 => CODE_ZERO_CHROMA_2
    case 3 => CODE_ZERO_CHROMA_3
  }

  const CODE_ZERO_CHROMA: seq<nat> :=
    CodeZeroChromaRow(1) + CodeZeroChromaRow(2) + CodeZeroChromaRow(3)

  const INDEX_ZERO_CHROMA: seq<nat> := [0, 4, 7]

  const SIZE_RUN_1: seq<nat> := [1, 1]
  const SIZE_RUN_2: seq<nat> := [1, 2, 2]
  const SIZE_RUN_3: seq<nat> := [2, 2, 2, 2]
  const SIZE_RUN_4: seq<nat> := [2, 2, 2, 3, 3]
  const SIZE_RUN_5: seq<nat> := [2, 2, 3, 3, 3, 3]
  const SIZE_RUN_6: seq<nat> := [2, 3, 3, 3, 3, 3, 3]
  const SIZE_RUN_7: seq<nat> := [3, 3, 3, 3, 3, 3, 3, 4, 5, 6, 7, 8, 9, 10, 11]

  function SizeRunRow(zerosLeft: nat): (row: seq<nat>)
    requires 1 <= zerosLeft <= 7
    ensures |row| == (if zerosLeft == 7 then 15 else zerosLeft + 1)
  {
    match zerosLeft
    case 1 => SIZE_RUN_1
    case 2 => SIZE_RUN_2
    case 3 => SIZE_RUN_3
    case 4 => SIZE_RUN_4
    case 5 => SIZE_RUN_5
    case 6 => SIZE_RUN_6
    case 7 => SIZE_RUN_7
  }

  const SIZE_RUN: seq<nat> :=
    SizeRunRow(1) + SizeRunRow(2) + SizeRunRow(3) + SizeRunRow(4) + SizeRunRow(5)
    + SizeRunRow(6) + SizeRunRow(7)

  const CODE_RUN_1: seq<nat> := [1, 0]
  const CODE_RUN_2: seq<nat> := [1, 1, 0]
  const CODE_RUN_3: seq<nat> := [3, 2, 1, 0]
  const CODE_RUN_4: seq<nat> := [3, 2, 1, 1, 0]
  const CODE_RUN_5: seq<nat> := [3, 2, 3, 2, 1, 0]
  const CODE_RUN_6: seq<nat> := [3, 0, 1, 3, 2, 5, 4]
  const CODE_RUN_7: seq<nat> := [7, 6, 5, 4, 3, 2, 1, 1, 1, 1, 1, 1, 1, 1, 1]

  function CodeRunRow(zerosLeft: nat): (row: seq<nat>)
    requires 1 <= zerosLeft <= 7
    ensures |row| == (if zerosLeft == 7 then 15 else zerosLeft + 1)
  {
    match zerosLeft
    case 1 => CODE_RUN_1
    case 2 => CODE_RUN_2
    case 3 => CODE_RUN_3
    case 4 => CODE_RUN_4
    case 5 => CODE_RUN_5
    case 6 => CODE_RUN_6
    case 7 => CODE_RUN_7
  }

  const CODE_RUN: seq<nat> :=
    CodeRunRow(1) + CodeRunRow(2) + CodeRunRow(3) + CodeRunRow(4) + CodeRunRow(5)
    + CodeRunRow(6) + CodeRunRow(7)

  const INDEX_RUN: seq<nat> :=
    [0, 2, 5, 9, 14, 20, 27]

  // The index tables find the rows.
  lemma ZeroRowAt(totalCoeff: nat, totalZeros: nat)
    requires 1 <= totalCoeff <= 15 && totalZeros <= 16 - totalCoeff
    ensures |INDEX_ZERO| == 15 && INDEX_ZERO[totalCoeff - 1] + totalZeros < |SIZE_ZERO| == |CODE_ZERO|
    ensures SIZE_ZERO[INDEX_ZERO[totalCoeff - 1] + totalZeros] == SizeZeroRow(totalCoeff)[totalZeros]
    ensures CODE_ZERO[INDEX_ZERO[totalCoeff - 1] + totalZeros] == CodeZeroRow(totalCoeff)[totalZeros]
  {
    hide SizeZeroRow, CodeZeroRow;
    match totalCoeff
    case 1 => case 2 => case 3 => case 4 => case 5 => case 6 => case 7 => case 8 =>
    case 9 => case 10 => case 11 => case 12 => case 13 => case 14 => case 15 =>
  }

  lemma ChromaRowAt(totalCoeff: nat, totalZeros: nat)
    requires 1 <= totalCoeff <= 3 && totalZeros <= 4 - totalCoeff
    ensures INDEX_ZERO_CHROMA[totalCoeff - 1] + totalZeros < |SIZE_ZERO_CHROMA| == |CODE_ZERO_CHROMA|
    ensures SIZE_ZERO_CHROMA[INDEX_ZERO_CHROMA[totalCoeff - 1] + totalZeros]
            == SizeZeroChromaRow(totalCoeff)[totalZeros]
    ensures CODE_ZERO_CHROMA[INDEX_ZERO_CHROMA[totalCoeff - 1] + totalZeros]
            == CodeZeroChromaRow(totalCoeff)[totalZeros]
  {
    hide SizeZeroChromaRow, CodeZeroChromaRow;
    match totalCoeff
    case 1 => case 2 => case 3 =>
  }

  lemma RunRowAt(row: nat, run: nat)
    requires 1 <= row <= 7 && run <= (if row == 7 then 14 else row)
    ensures INDEX_RUN[row - 1] + run < |SIZE_RUN| == |CODE_RUN|
    ensures SIZE_RUN[INDEX_RUN[row - 1] + run] == SizeRunRow(row)[run]
    ensures CODE_RUN[INDEX_RUN[row - 1] + run] == CodeRunRow(row)[run]
  {
    hide SizeRunRow, CodeRunRow;
    match row
    case 1 => case 2 => case 3 => case 4 => case 5 => case 6 => case 7 =>
  }

  // ---- decoder: total_zeros in the low four bits, word size in the high four ----

  function Rep(x: nat, n: nat): (s: seq<nat>)
    ensures |s| == n && forall i :: 0 <= i < n ==> s[i] == x
  {
    seq(n, _ => x)
  }

  // By total_coeff 2 to 10, indexed by the next six bits.
  const TOTAL_ZERO_2: seq<nat> := (([0x6E, 0x6D, 0x6C, 0x6B] + (Rep(0x5A, 2) + Rep(0x59, 2))) + (Rep(0x48, 4)
      + (Rep(0x47, 4) + Rep(0x46, 4)))) + ((Rep(0x45, 4) + (Rep(0x34, 8) + Rep(0x33, 8))) + (Rep(0x32, 8) + (Rep(0x31,
      8) + Rep(0x30, 8))))
  const TOTAL_ZERO_3: seq<nat> := (([0x6D, 0x6B] + (Rep(0x5C, 2) + Rep(0x5A, 2))) + (Rep(0x59, 2) + (Rep(0x48, 4)
      + Rep(0x45, 4)))) + ((Rep(0x44, 4) + (Rep(0x40, 4) + Rep(0x37, 8))) + ((Rep(0x36, 8) + Rep(0x33, 8))
      + (Rep(0x32, 8) + Rep(0x31, 8))))
  const TOTAL_ZERO_4: seq<nat> := ((Rep(0x5C, 2) + (Rep(0x5B, 2) + Rep(0x5A, 2))) + (Rep(0x50, 2) + (Rep(0x49, 4)
      + Rep(0x47, 4)))) + ((Rep(0x43, 4) + (Rep(0x42, 4) + Rep(0x38, 8))) + ((Rep(0x36, 8) + Rep(0x35, 8))
      + (Rep(0x34, 8) + Rep(0x31, 8))))
  const TOTAL_ZERO_5: seq<nat> := ((Rep(0x5B, 2) + (Rep(0x59, 2) + Rep(0x4A, 4))) + (Rep(0x48, 4) + (Rep(0x42, 4)
      + Rep(0x41, 4)))) + ((Rep(0x40, 4) + (Rep(0x37, 8) + Rep(0x36, 8))) + (Rep(0x35, 8) + (Rep(0x34, 8) + Rep(0x33,
      8))))
  const TOTAL_ZERO_6: seq<nat> := (([0x6A, 0x60] + Rep(0x51, 2)) + (Rep(0x48, 4) + (Rep(0x39, 8) + Rep(0x37, 8))))
      + ((Rep(0x36, 8) + Rep(0x35, 8)) + (Rep(0x34, 8) + (Rep(0x33, 8) + Rep(0x32, 8))))
  const TOTAL_ZERO_7: seq<nat> := (([0x69, 0x60] + Rep(0x51, 2)) + (Rep(0x47, 4) + Rep(0x38, 8))) + ((Rep(0x36, 8)
      + Rep(0x34, 8)) + (Rep(0x33, 8) + (Rep(0x32, 8) + Rep(0x25, 16))))
  const TOTAL_ZERO_8: seq<nat> := (([0x68, 0x60] + Rep(0x52, 2)) + (Rep(0x41, 4) + Rep(0x37, 8))) + ((Rep(0x36, 8)
      + Rep(0x33, 8)) + (Rep(0x25, 16) + Rep(0x24, 16)))
  const TOTAL_ZERO_9: seq<nat> := ([0x61, 0x60] + (Rep(0x57, 2) + Rep(0x42, 4))) + ((Rep(0x35, 8) + Rep(0x26, 16))
      + (Rep(0x24, 16) + Rep(0x23, 16)))
  const TOTAL_ZERO_10: seq<nat> := (Rep(0x51, 2) + (Rep(0x50, 2) + Rep(0x46, 4))) + ((Rep(0x32, 8) + Rep(0x25, 16))
      + (Rep(0x24, 16) + Rep(0x23, 16)))

  function LookupSix(totalCoeff: nat): (row: seq<nat>)
    requires 2 <= totalCoeff <= 10
    ensures |row| == 64
  {
    match totalCoeff
    case 2 => TOTAL_ZERO_2
    case 3 => TOTAL_ZERO_3
    case 4 => TOTAL_ZERO_4
    case 5 => TOTAL_ZERO_5
    case 6 => TOTAL_ZERO_6
    case 7 => TOTAL_ZERO_7
    case 8 => TOTAL_ZERO_8
    case 9 => TOTAL_ZERO_9
    case 10 => TOTAL_ZERO_10
  }

  // By total_coeff 11 to 15, indexed by the next four bits.
  const TOTAL_ZERO_11: seq<nat> := [0x40, 0x41] + Rep(0x32, 2) + Rep(0x33, 2) + Rep(0x35, 2) + Rep(0x14, 8)
  const TOTAL_ZERO_12: seq<nat> := [0x40, 0x41] + Rep(0x34, 2) + Rep(0x22, 4) + Rep(0x13, 8)
  const TOTAL_ZERO_13: seq<nat> := Rep(0x30, 2) + Rep(0x31, 2) + Rep(0x23, 4) + Rep(0x12, 8)
  const TOTAL_ZERO_14: seq<nat> := Rep(0x20, 4) + Rep(0x21, 4) + Rep(0x12, 8)
  const TOTAL_ZERO_15: seq<nat> := Rep(0x10, 8) + Rep(0x11, 8)

  function LookupFour(totalCoeff: nat): (row: seq<nat>)
    requires 11 <= totalCoeff <= 15
    ensures |row| == 16
  {
    match totalCoeff
    case 11 => TOTAL_ZERO_11
    case 12 => TOTAL_ZERO_12
    case 13 => TOTAL_ZERO_13
    case 14 => TOTAL_ZERO_14
    case 15 => TOTAL_ZERO_15
  }

  // By the zeros left, 1 to 6, and the next three bits: the run above the two low
  // bits, the word size in these.
  const RUN_BEFORE_0: seq<nat> := [0, 0, 0, 0, 0, 0, 0, 0]
  const RUN_BEFORE_1: seq<nat> := [5, 5, 5, 5, 1, 1, 1, 1]
  const RUN_BEFORE_2: seq<nat> := [10, 10, 6, 6, 1, 1, 1, 1]
  const RUN_BEFORE_3: seq<nat> := [14, 14, 10, 10, 6, 6, 2, 2]
  const RUN_BEFORE_4: seq<nat> := [19, 15, 10, 10, 6, 6, 2, 2]
  const RUN_BEFORE_5: seq<nat> := [23, 19, 15, 11, 6, 6, 2, 2]
  const RUN_BEFORE_6: seq<nat> := [7, 11, 19, 15, 27, 23, 2, 2]
  const RUN_BEFORE_7: seq<nat> := [27, 27, 23, 19, 15, 11, 7, 3]

  function RunBeforeRow(zerosLeft: nat): (row: seq<nat>)
    requires zerosLeft <= 7
    ensures |row| == 8
  {
    match zerosLeft
    case 0 => RUN_BEFORE_0
    case 1 => RUN_BEFORE_1
    case 2 => RUN_BEFORE_2
    case 3 => RUN_BEFORE_3
    case 4 => RUN_BEFORE_4
    case 5 => RUN_BEFORE_5
    case 6 => RUN_BEFORE_6
    case 7 => RUN_BEFORE_7
  }

  const RUN_BEFORE: seq<nat> :=
    RunBeforeRow(0) + RunBeforeRow(1) + RunBeforeRow(2) + RunBeforeRow(3)
    + RunBeforeRow(4) + RunBeforeRow(5) + RunBeforeRow(6) + RunBeforeRow(7)

  lemma RunBeforeRowAt(zerosLeft: nat, i: nat)
    requires zerosLeft <= 7 && i < 8
    ensures i + 8 * zerosLeft < |RUN_BEFORE| && RUN_BEFORE[i + 8 * zerosLeft] == RunBeforeRow(zerosLeft)[i]
  {
    hide RunBeforeRow;
    match zerosLeft
    case 0 => case 1 => case 2 => case 3 => case 4 => case 5 => case 6 => case 7 =>
  }
}
