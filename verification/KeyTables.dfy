/** The lookup tables of the Warcraft III key decoder. */
module KeyTables {
  type Nibble = x: int | 0 <= x < 16

  // The thirty rows of the flat 480-entry translate map; row n holds entries 16 * n to 16 * n + 15.
  const ROW_0: seq<Nibble> := [9, 4, 7, 15, 13, 10, 3, 11, 1, 2, 12, 8, 6, 14, 5, 0]
  const ROW_1: seq<Nibble> := [9, 11, 5, 4, 8, 15, 1, 14, 7, 0, 3, 2, 10, 6, 13, 12]
  const ROW_2: seq<Nibble> := [12, 14, 1, 4, 9, 15, 10, 11, 13, 6, 0, 8, 7, 2, 5, 3]
  const ROW_3: seq<Nibble> := [11, 2, 5, 14, 13, 3, 9, 0, 1, 15, 7, 12, 10, 6, 4, 8]
  const ROW_4: seq<Nibble> := [6, 2, 4, 5, 11, 8, 12, 14, 13, 15, 7, 1, 10, 0, 3, 9]
  const ROW_5: seq<Nibble> := [5, 4, 14, 12, 7, 6, 13, 10, 15, 2, 9, 1, 0, 11, 8, 3]
  const ROW_6: seq<Nibble> := [12, 7, 8, 15, 11, 0, 5, 9, 13, 10, 6, 14, 2, 4, 3, 1]
  const ROW_7: seq<Nibble> := [3, 10, 14, 8, 1, 11, 5, 4, 2, 15, 13, 12, 6, 7, 9, 0]
  const ROW_8: seq<Nibble> := [12, 13, 1, 15, 8, 14, 5, 11, 3, 10, 9, 0, 7, 2, 4, 6]
  const ROW_9: seq<Nibble> := [13, 10, 7, 14, 1, 6, 11, 8, 15, 12, 5, 2, 3, 0, 4, 9]
  const ROW_10: seq<Nibble> := [3, 14, 7, 5, 11, 15, 8, 12, 1, 10, 4, 13, 0, 6, 9, 2]
  const ROW_11: seq<Nibble> := [11, 6, 9, 4, 1, 8, 10, 13, 7, 14, 0, 12, 15, 2, 3, 5]
  const ROW_12: seq<Nibble> := [12, 7, 8, 13, 3, 11, 0, 14, 6, 15, 9, 4, 10, 1, 5, 2]
  const ROW_13: seq<Nibble> := [12, 6, 13, 9, 11, 0, 1, 2, 15, 7, 3, 4, 10, 14, 8, 5]
  const ROW_14: seq<Nibble> := [3, 6, 1, 5, 11, 12, 8, 0, 15, 14, 9, 4, 7, 10, 13, 2]
  const ROW_15: seq<Nibble> := [10, 7, 11, 15, 2, 8, 0, 13, 14, 12, 1, 6, 9, 3, 5, 4]
  const ROW_16: seq<Nibble> := [10, 11, 13, 4, 3, 8, 5, 9, 1, 0, 15, 12, 7, 14, 2, 6]
  const ROW_17: seq<Nibble> := [11, 4, 13, 15, 1, 6, 3, 14, 7, 10, 12, 8, 9, 2, 5, 0]
  const ROW_18: seq<Nibble> := [9, 6, 7, 0, 1, 10, 13, 2, 3, 14, 15, 12, 5, 11, 4, 8]
  const ROW_19: seq<Nibble> := [13, 14, 5, 6, 1, 9, 8, 12, 2, 15, 3, 7, 11, 4, 0, 10]
  const ROW_20: seq<Nibble> := [9, 15, 4, 0, 1, 6, 10, 14, 2, 3, 7, 13, 5, 11, 8, 12]
  const ROW_21: seq<Nibble> := [3, 14, 1, 10, 2, 12, 8, 4, 11, 7, 13, 0, 15, 6, 9, 5]
  const ROW_22: seq<Nibble> := [7, 2, 12, 6, 10, 8, 11, 0, 15, 4, 3, 14, 9, 1, 13, 5]
  const ROW_23: seq<Nibble> := [12, 4, 5, 9, 10, 2, 8, 13, 3, 15, 1, 14, 6, 7, 11, 0]
  const ROW_24: seq<Nibble> := [10, 8, 14, 13, 9, 15, 3, 0, 4, 6, 1, 12, 7, 11, 2, 5]
  const ROW_25: seq<Nibble> := [3, 12, 4, 10, 2, 15, 13, 14, 7, 0, 5, 8, 1, 6, 11, 9]
  const ROW_26: seq<Nibble> := [10, 12, 1, 0, 9, 14, 13, 11, 3, 7, 15, 8, 5, 2, 4, 6]
  const ROW_27: seq<Nibble> := [14, 10, 1, 8, 7, 6, 5, 12, 2, 15, 0, 13, 3, 11, 4, 9]
  const ROW_28: seq<Nibble> := [3, 8, 14, 0, 7, 9, 15, 12, 1, 6, 13, 2, 5, 10, 11, 4]
  const ROW_29: seq<Nibble> := [3, 10, 12, 4, 13, 11, 9, 14, 15, 6, 1, 7, 2, 0, 5, 8]

  // The inverse of each row, which undoing the transformation reads; decoding a key needs none.
  const BACK_0: seq<Nibble> := [15, 8, 9, 6, 1, 14, 12, 2, 11, 0, 5, 7, 10, 4, 13, 3]
  const BACK_1: seq<Nibble> := [9, 6, 11, 10, 3, 2, 13, 8, 4, 0, 12, 1, 15, 14, 7, 5]
  const BACK_2: seq<Nibble> := [10, 2, 13, 15, 3, 14, 9, 12, 11, 4, 6, 7, 0, 8, 1, 5]
  const BACK_3: seq<Nibble> := [7, 8, 1, 5, 14, 2, 13, 10, 15, 6, 12, 0, 11, 4, 3, 9]
  const BACK_4: seq<Nibble> := [13, 11, 1, 14, 2, 3, 0, 10, 5, 15, 12, 4, 6, 8, 7, 9]
  const BACK_5: seq<Nibble> := [12, 11, 9, 15, 1, 0, 5, 4, 14, 10, 7, 13, 3, 6, 2, 8]
  const BACK_6: seq<Nibble> := [5, 15, 12, 14, 13, 6, 10, 1, 2, 7, 9, 4, 0, 8, 11, 3]
  const BACK_7: seq<Nibble> := [15, 4, 8, 0, 7, 6, 12, 13, 3, 14, 1, 5, 11, 10, 2, 9]
  const BACK_8: seq<Nibble> := [11, 2, 13, 8, 14, 6, 15, 12, 4, 10, 9, 7, 0, 1, 5, 3]
  const BACK_9: seq<Nibble> := [13, 4, 11, 12, 14, 10, 5, 2, 7, 15, 1, 6, 9, 0, 3, 8]
  const BACK_10: seq<Nibble> := [12, 8, 15, 0, 10, 3, 13, 2, 6, 14, 9, 4, 7, 11, 1, 5]
  const BACK_11: seq<Nibble> := [10, 4, 13, 14, 3, 15, 1, 8, 5, 2, 6, 0, 11, 7, 9, 12]
  const BACK_12: seq<Nibble> := [6, 13, 15, 4, 11, 14, 8, 1, 2, 10, 12, 5, 0, 3, 7, 9]
  const BACK_13: seq<Nibble> := [5, 6, 7, 10, 11, 15, 1, 9, 14, 3, 12, 4, 0, 2, 13, 8]
  const BACK_14: seq<Nibble> := [7, 2, 15, 0, 11, 3, 1, 12, 6, 10, 13, 4, 5, 14, 9, 8]
  const BACK_15: seq<Nibble> := [6, 10, 4, 13, 15, 14, 11, 1, 5, 12, 0, 2, 9, 7, 8, 3]
  const BACK_16: seq<Nibble> := [9, 8, 14, 4, 3, 6, 15, 12, 5, 7, 0, 1, 11, 2, 13, 10]
  const BACK_17: seq<Nibble> := [15, 4, 13, 6, 1, 14, 5, 8, 11, 12, 9, 0, 10, 2, 7, 3]
  const BACK_18: seq<Nibble> := [3, 4, 7, 8, 14, 12, 1, 2, 15, 0, 5, 13, 11, 6, 9, 10]
  const BACK_19: seq<Nibble> := [14, 4, 8, 10, 13, 2, 3, 11, 6, 5, 15, 12, 7, 0, 1, 9]
  const BACK_20: seq<Nibble> := [3, 4, 8, 9, 2, 12, 5, 10, 14, 0, 6, 13, 15, 11, 7, 1]
  const BACK_21: seq<Nibble> := [11, 2, 4, 0, 7, 15, 13, 9, 6, 14, 3, 8, 5, 10, 1, 12]
  const BACK_22: seq<Nibble> := [7, 13, 1, 10, 9, 15, 3, 0, 5, 12, 4, 6, 2, 14, 11, 8]
  const BACK_23: seq<Nibble> := [15, 10, 5, 8, 1, 2, 12, 13, 6, 3, 4, 14, 0, 7, 11, 9]
  const BACK_24: seq<Nibble> := [7, 10, 14, 6, 8, 15, 9, 12, 1, 4, 0, 13, 11, 3, 2, 5]
  const BACK_25: seq<Nibble> := [9, 12, 4, 0, 2, 10, 13, 8, 11, 15, 3, 14, 1, 6, 7, 5]
  const BACK_26: seq<Nibble> := [3, 2, 13, 8, 14, 12, 15, 9, 11, 4, 0, 7, 1, 6, 5, 10]
  const BACK_27: seq<Nibble> := [10, 2, 8, 12, 14, 6, 5, 4, 3, 15, 1, 13, 7, 11, 0, 9]
  const BACK_28: seq<Nibble> := [3, 8, 11, 0, 15, 12, 9, 4, 1, 5, 13, 14, 7, 10, 2, 6]
  const BACK_29: seq<Nibble> := [13, 10, 12, 0, 3, 14, 9, 11, 15, 6, 1, 5, 2, 4, 7, 8]

  function Row(n: nat): seq<Nibble>
    requires n < 30
  {
    match n
    case 0 => ROW_0
    case 1 => ROW_1
    case 2 => ROW_2
    case 3 => ROW_3
    case 4 => ROW_4
    case 5 => ROW_5
    case 6 => ROW_6
    case 7 => ROW_7
    case 8 => ROW_8
    case 9 => ROW_9
    case 10 => ROW_10
    case 11 => ROW_11
    case 12 => ROW_12
    case 13 => ROW_13
    case 14 => ROW_14
    case 15 => ROW_15
    case 16 => ROW_16
    case 17 => ROW_17
    case 18 => ROW_18
    case 19 => ROW_19
    case 20 => ROW_20
    case 21 => ROW_21
    case 22 => ROW_22
    case 23 => ROW_23
    case 24 => ROW_24
    case 25 => ROW_25
    case 26 => ROW_26
    case 27 => ROW_27
    case 28 => ROW_28
    case _ => ROW_29
  }

  function InverseRow(n: nat): seq<Nibble>
    requires n < 30
  {
    match n
    case 0 => BACK_0
    case 1 => BACK_1
    case 2 => BACK_2
    case 3 => BACK_3
    case 4 => BACK_4
    case 5 => BACK_5
    case 6 => BACK_6
    case 7 => BACK_7
    case 8 => BACK_8
    case 9 => BACK_9
    case 10 => BACK_10
    case 11 => BACK_11
    case 12 => BACK_12
    case 13 => BACK_13
    case 14 => BACK_14
    case 15 => BACK_15
    case 16 => BACK_16
    case 17 => BACK_17
    case 18 => BACK_18
    case 19 => BACK_19
    case 20 => BACK_20
    case 21 => BACK_21
    case 22 => BACK_22
    case 23 => BACK_23
    case 24 => BACK_24
    case 25 => BACK_25
    case 26 => BACK_26
    case 27 => BACK_27
    case 28 => BACK_28
    case _ => BACK_29
  }

  predicate UndoneAt(row: seq<Nibble>, back: seq<Nibble>, x: Nibble) {
    |row| == 16 && |back| == 16 && back[row[x]] == x && row[back[x]] == x
  }

  /** Row and back are permutations of the sixteen nibbles, each undoing the other. */
  predicate Inverts(row: seq<Nibble>, back: seq<Nibble>) {
    && UndoneAt(row, back, 0) && UndoneAt(row, back, 1) && UndoneAt(row, back, 2) && UndoneAt(row, back, 3)
    && UndoneAt(row, back, 4) && UndoneAt(row, back, 5) && UndoneAt(row, back, 6) && UndoneAt(row, back, 7)
    && UndoneAt(row, back, 8) && UndoneAt(row, back, 9) && UndoneAt(row, back, 10) && UndoneAt(row, back, 11)
    && UndoneAt(row, back, 12) && UndoneAt(row, back, 13) && UndoneAt(row, back, 14) && UndoneAt(row, back, 15)
  }

  lemma InvertsAt(row: seq<Nibble>, back: seq<Nibble>, x: Nibble)
    requires Inverts(row, back)
    ensures UndoneAt(row, back, x)
  {}

  lemma RowsInvert0()
    ensures Inverts(ROW_0, BACK_0)
    ensures Inverts(ROW_1, BACK_1)
    ensures Inverts(ROW_2, BACK_2)
    ensures Inverts(ROW_3, BACK_3)
    ensures Inverts(ROW_4, BACK_4)
  {}

  lemma RowsInvert5()
    ensures Inverts(ROW_5, BACK_5)
    ensures Inverts(ROW_6, BACK_6)
    ensures Inverts(ROW_7, BACK_7)
    ensures Inverts(ROW_8, BACK_8)
    ensures Inverts(ROW_9, BACK_9)
  {}

  lemma RowsInvert10()
    ensures Inverts(ROW_10, BACK_10)
    ensures Inverts(ROW_11, BACK_11)
    ensures Inverts(ROW_12, BACK_12)
    ensures Inverts(ROW_13, BACK_13)
    ensures Inverts(ROW_14, BACK_14)
  {}

  lemma RowsInvert15()
    ensures Inverts(ROW_15, BACK_15)
    ensures Inverts(ROW_16, BACK_16)
    ensures Inverts(ROW_17, BACK_17)
    ensures Inverts(ROW_18, BACK_18)
    ensures Inverts(ROW_19, BACK_19)
  {}

  lemma RowsInvert20()
    ensures Inverts(ROW_20, BACK_20)
    ensures Inverts(ROW_21, BACK_21)
    ensures Inverts(ROW_22, BACK_22)
    ensures Inverts(ROW_23, BACK_23)
    ensures Inverts(ROW_24, BACK_24)
  {}

  lemma RowsInvert25()
    ensures Inverts(ROW_25, BACK_25)
    ensures Inverts(ROW_26, BACK_26)
    ensures Inverts(ROW_27, BACK_27)
    ensures Inverts(ROW_28, BACK_28)
    ensures Inverts(ROW_29, BACK_29)
  {}

  /** Every row of the translate map is a permutation of the sixteen nibbles. */
  lemma RowsInvert(n: nat, x: Nibble)
    requires n < 30
    ensures UndoneAt(Row(n), InverseRow(n), x)
  {
    RowsInvert0();
    RowsInvert5();
    RowsInvert10();
    RowsInvert15();
    RowsInvert20();
    RowsInvert25();
    hide Inverts, UndoneAt;
    InvertsAt(Row(n), InverseRow(n), x);
  }
}
