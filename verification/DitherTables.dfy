/**
  The Bayer tables of convert_bits.cpp, as the source has them, and the
  recursive pattern they follow.
 */
module DitherTables {
  // ------------------------------------------------------------------ tables

  const DITHER_2X2: seq<seq<nat>> := [
    [0, 2],
    [3, 1]]

  const DITHER_4X4: seq<seq<nat>> := [
    [0, 8, 2, 10],
    [12, 4, 14, 6],
    [3, 11, 1, 9],
    [15, 7, 13, 5]]

  const DITHER_8X8: seq<seq<nat>> := [
    [0, 32, 8, 40, 2, 34, 10, 42],
    [48, 16, 56, 24, 50, 18, 58, 26],
    [12, 44, 4, 36, 14, 46, 6, 38],
    [60, 28, 52, 20, 62, 30, 54, 22],
    [3, 35, 11, 43, 1, 33, 9, 41],
    [51, 19, 59, 27, 49, 17, 57, 25],
    [15, 47, 7, 39, 13, 45, 5, 37],
    [63, 31, 55, 23, 61, 29, 53, 21]]

  const DITHER_16X16: seq<seq<nat>> := [
    [0, 192, 48, 240, 12, 204, 60, 252, 3, 195, 51, 243, 15, 207, 63, 255],
    [128, 64, 176, 112, 140, 76, 188, 124, 131, 67, 179, 115, 143, 79, 191, 127],
    [32, 224, 16, 208, 44, 236, 28, 220, 35, 227, 19, 211, 47, 239, 31, 223],
    [160, 96, 144, 80, 172, 108, 156, 92, 163, 99, 147, 83, 175, 111, 159, 95],
    [8, 200, 56, 248, 4, 196, 52, 244, 11, 203, 59, 251, 7, 199, 55, 247],
    [136, 72, 184, 120, 132, 68, 180, 116, 139, 75, 187, 123, 135, 71, 183, 119],
    [40, 232, 24, 216, 36, 228, 20, 212, 43, 235, 27, 219, 39, 231, 23, 215],
    [168, 104, 152, 88, 164, 100, 148, 84, 171, 107, 155, 91, 167, 103, 151, 87],
    [2, 194, 50, 242, 14, 206, 62, 254, 1, 193, 49, 241, 13, 205, 61, 253],
    [130, 66, 178, 114, 142, 78, 190, 126, 129, 65, 177, 113, 141, 77, 189, 125],
    [34, 226, 18, 210, 46, 238, 30, 222, 33, 225, 17, 209, 45, 237, 29, 221],
    [162, 98, 146, 82, 174, 110, 158, 94, 161, 97, 145, 81, 173, 109, 157, 93],
    [10, 202, 58, 250, 6, 198, 54, 246, 9, 201, 57, 249, 5, 197, 53, 245],
    [138, 74, 186, 122, 134, 70, 182, 118, 137, 73, 185, 121, 133, 69, 181, 117],
    [42, 234, 26, 218, 38, 230, 22, 214, 41, 233, 25, 217, 37, 229, 21, 213],
    [170, 106, 154, 90, 166, 102, 150, 86, 169, 105, 153, 89, 165, 101, 149, 85]]

  const DITHER_2X2A: seq<seq<nat>> := [
    [0, 1],
    [1, 0]]

  const DITHER_4X4A: seq<seq<nat>> := [
    [0, 4, 1, 5],
    [6, 2, 7, 3],
    [1, 5, 0, 4],
    [7, 3, 6, 2]]

  const DITHER_8X8A: seq<seq<nat>> := [
    [0, 16, 4, 20, 1, 17, 5, 21],
    [24, 8, 28, 12, 25, 9, 29, 13],
    [6, 22, 2, 18, 7, 23, 3, 19],
    [30, 14, 26, 10, 31, 15, 27, 11],
    [1, 17, 5, 21, 0, 16, 4, 20],
    [25, 9, 29, 13, 24, 8, 28, 12],
    [7, 23, 3, 19, 6, 22, 2, 18],
    [31, 15, 27, 11, 30, 14, 26, 10]]

  const DITHER_16X16A: seq<seq<nat>> := [
    [0, 96, 24, 120, 6, 102, 30, 126, 1, 97, 25, 121, 7, 103, 31, 127],
    [64, 32, 88, 56, 70, 38, 94, 62, 65, 33, 89, 57, 71, 39, 95, 63],
    [16, 112, 8, 104, 22, 118, 14, 110, 17, 113, 9, 105, 23, 119, 15, 111],
    [80, 48, 72, 40, 86, 54, 78, 46, 81, 49, 73, 41, 87, 55, 79, 47],
    [4, 100, 28, 124, 2, 98, 26, 122, 5, 101, 29, 125, 3, 99, 27, 123],
    [68, 36, 92, 60, 66, 34, 90, 58, 69, 37, 93, 61, 67, 35, 91, 59],
    [20, 116, 12, 108, 18, 114, 10, 106, 21, 117, 13, 109, 19, 115, 11, 107],
    [84, 52, 76, 44, 82, 50, 74, 42, 85, 53, 77, 45, 83, 51, 75, 43],
    [1, 97, 25, 121, 7, 103, 31, 127, 0, 96, 24, 120, 6, 102, 30, 126],
    [75, 33, 89, 57, 71, 39, 95, 63, 64, 32, 88, 56, 70, 38, 94, 62],
    [17, 113, 9, 105, 23, 119, 15, 111, 16, 112, 8, 104, 22, 118, 14, 110],
    [81, 49, 73, 41, 87, 55, 79, 47, 80, 48, 72, 40, 86, 54, 78, 46],
    [5, 101, 29, 125, 3, 99, 27, 123, 4, 100, 28, 124, 2, 98, 26, 122],
    [69, 37, 93, 61, 67, 35, 91, 59, 68, 36, 92, 60, 66, 34, 90, 58],
    [21, 117, 13, 109, 19, 115, 11, 107, 20, 116, 12, 108, 18, 114, 10, 106],
    [85, 53, 77, 45, 83, 51, 75, 43, 84, 52, 76, 44, 82, 50, 74, 42]]

  predicate IsOrder(order: nat) {
    1 <= order <= 4
  }

  function Matrix(order: nat): seq<seq<nat>>
    requires IsOrder(order)
  {
    if order == 1 then DITHER_2X2 else if order == 2 then DITHER_4X4 else if order == 3 then DITHER_8X8 else DITHER_16X16
  }

  /** The tables for odd bit differences. */
  function OddMatrix(order: nat): seq<seq<nat>>
    requires IsOrder(order)
  {
    if order == 1 then DITHER_2X2A else if order == 2 then DITHER_4X4A else if order == 3 then DITHER_8X8A else DITHER_16X16A
  }

  function Side(n: nat): (r: nat)
    ensures r > 0
  {
    if n == 0 then 1 else 2 * Side(n - 1)
  }

  function Cells(n: nat): (r: nat)
    ensures r > 0
  {
    if n == 0 then 1 else 4 * Cells(n - 1)
  }

  /** The 2x2 pattern that a table repeats at every scale. */
  function Quad(order: nat, y: int, x: int): nat {
    if y == 0 then (if x == 0 then 0 else if order == 4 then 3 else 2)
    else (if x == 0 then (if order == 4 then 2 else 3) else 1)
  }

  /** The closed form of the tables: the low bits of the position weigh most. */
  function Bayer(order: nat, n: nat, y: nat, x: nat): nat {
    if n == 0 then 0 else Cells(n - 1) * Quad(order, y % 2, x % 2) + Bayer(order, n - 1, y / 2, x / 2)
  }

  // The two larger tables, written out by binary digits of the position.

  function Flat8(y: nat, x: nat): nat {
    16 * Quad(3, y % 2, x % 2) + 4 * Quad(3, y / 2 % 2, x / 2 % 2) + Quad(3, y / 4 % 2, x / 4 % 2)
  }

  function Flat16(y: nat, x: nat): nat {
    64 * Quad(4, y % 2, x % 2) + 16 * Quad(4, y / 2 % 2, x / 2 % 2) + 4 * Quad(4, y / 4 % 2, x / 4 % 2) + Quad(4, y / 8 % 2, x / 8 % 2)
  }

  function FlatRow8(y: nat): seq<nat> {
    [Flat8(y, 0), Flat8(y, 1), Flat8(y, 2), Flat8(y, 3), Flat8(y, 4), Flat8(y, 5), Flat8(y, 6), Flat8(y, 7)]
  }

  function FlatRow16(y: nat): seq<nat> {
    [Flat16(y, 0), Flat16(y, 1), Flat16(y, 2), Flat16(y, 3), Flat16(y, 4), Flat16(y, 5), Flat16(y, 6), Flat16(y, 7),
     Flat16(y, 8), Flat16(y, 9), Flat16(y, 10), Flat16(y, 11), Flat16(y, 12), Flat16(y, 13), Flat16(y, 14), Flat16(y, 15)]
  }

  lemma Rows8_0()
    ensures DITHER_8X8[0..2] == [FlatRow8(0), FlatRow8(1)]
  {
  }

  lemma Rows8_2()
    ensures DITHER_8X8[2..4] == [FlatRow8(2), FlatRow8(3)]
  {
  }

  lemma Rows8_4()
    ensures DITHER_8X8[4..6] == [FlatRow8(4), FlatRow8(5)]
  {
  }

  lemma Rows8_6()
    ensures DITHER_8X8[6..8] == [FlatRow8(6), FlatRow8(7)]
  {
  }

  lemma Rows16_0()
    ensures DITHER_16X16[0..4] == [FlatRow16(0), FlatRow16(1), FlatRow16(2), FlatRow16(3)]
  {
  }

  lemma Rows16_4()
    ensures DITHER_16X16[4..8] == [FlatRow16(4), FlatRow16(5), FlatRow16(6), FlatRow16(7)]
  {
  }

  lemma Rows16_8()
    ensures DITHER_16X16[8..12] == [FlatRow16(8), FlatRow16(9), FlatRow16(10), FlatRow16(11)]
  {
  }

  lemma Rows16_12()
    ensures DITHER_16X16[12..16] == [FlatRow16(12), FlatRow16(13), FlatRow16(14), FlatRow16(15)]
  {
  }

  lemma PickRow<T>(rows: seq<T>, base: nat, y: nat, f: nat -> T)
    requires base <= y < base + 4 <= |rows| && rows[base..base + 4] == [f(base), f(base + 1), f(base + 2), f(base + 3)]
    ensures rows[y] == f(y)
  {
    assert rows[y] == rows[base..base + 4][y - base];
  }

  lemma PickPair<T>(rows: seq<T>, base: nat, y: nat, f: nat -> T)
    requires base <= y < base + 2 <= |rows| && rows[base..base + 2] == [f(base), f(base + 1)]
    ensures rows[y] == f(y)
  {
    assert rows[y] == rows[base..base + 2][y - base];
  }

  lemma Row8(y: nat)
    requires y < 8
    ensures |DITHER_8X8| == 8 && DITHER_8X8[y] == FlatRow8(y)
  {
    hide FlatRow8;
    Rows8_0();
    Rows8_2();
    Rows8_4();
    Rows8_6();
    PickPair(DITHER_8X8, y / 2 * 2, y, z => FlatRow8(z));
  }

  lemma Row16(y: nat)
    requires y < 16
    ensures |DITHER_16X16| == 16 && DITHER_16X16[y] == FlatRow16(y)
  {
    hide FlatRow16;
    Rows16_0();
    Rows16_4();
    Rows16_8();
    Rows16_12();
    PickRow(DITHER_16X16, y / 4 * 4, y, z => FlatRow16(z));
  }

  lemma FlatRowAt(y: nat, x: nat)
    ensures x < 8 ==> |FlatRow8(y)| == 8 && FlatRow8(y)[x] == Flat8(y, x)
    ensures x < 16 ==> |FlatRow16(y)| == 16 && FlatRow16(y)[x] == Flat16(y, x)
  {
    hide Flat8, Flat16;
  }

  lemma SmallTables(order: nat, y: nat, x: nat)
    requires 1 <= order <= 2 && y < Side(order) && x < Side(order)
    ensures |Matrix(order)| == Side(order) == |Matrix(order)[y]| && Matrix(order)[y][x] == Bayer(order, order, y, x)
  {
    assert Side(0) == 1 && Side(1) == 2 && Side(2) == 4 && Cells(0) == 1 && Cells(1) == 4;
    assert Bayer(order, 1, y / 2, x / 2) == Quad(order, y / 2 % 2, x / 2 % 2) + Bayer(order, 0, y / 2 / 2, x / 2 / 2);
  }

  lemma FlatIsBayer(y: nat, x: nat)
    ensures Flat8(y, x) == Bayer(3, 3, y, x) && Flat16(y, x) == Bayer(4, 4, y, x)
  {
    hide Quad;
    assert Cells(0) == 1 && Cells(1) == 4 && Cells(2) == 16 && Cells(3) == 64;
    assert y / 2 / 2 == y / 4 && y / 2 / 2 / 2 == y / 8 && x / 2 / 2 == x / 4 && x / 2 / 2 / 2 == x / 8;
    forall order ensures Bayer(order, 2, y / 4, x / 4) == 4 * Quad(order, y / 4 % 2, x / 4 % 2) + Quad(order, y / 8 % 2, x / 8 % 2) {
      assert Bayer(order, 1, y / 8, x / 8) == Quad(order, y / 8 % 2, x / 8 % 2) + Bayer(order, 0, y / 8 / 2, x / 8 / 2);
    }
    assert Bayer(3, 1, y / 4, x / 4) == Quad(3, y / 4 % 2, x / 4 % 2) + Bayer(3, 0, y / 4 / 2, x / 4 / 2);
    assert Bayer(3, 2, y / 2, x / 2) == 4 * Quad(3, y / 2 % 2, x / 2 % 2) + Bayer(3, 1, y / 4, x / 4);
    assert Bayer(4, 3, y / 2, x / 2) == 16 * Quad(4, y / 2 % 2, x / 2 % 2) + Bayer(4, 2, y / 4, x / 4);
  }

  /** Every table of the source is the recursive pattern. */
  lemma TableIsBayer(order: nat, y: nat, x: nat)
    requires IsOrder(order) && y < Side(order) && x < Side(order)
    ensures |Matrix(order)| == Side(order) == |Matrix(order)[y]| && Matrix(order)[y][x] == Bayer(order, order, y, x)
  {
    hide Flat8, Flat16, FlatRow8, FlatRow16, Bayer;
    if order <= 2 {
      SmallTables(order, y, x);
    } else {
      assert Side(0) == 1 && Side(1) == 2 && Side(2) == 4 && Side(3) == 8;
      FlatRowAt(y, x);
      FlatIsBayer(y, x);
      if order == 3 { Row8(y); } else { Row16(y); }
    }
  }

  // The odd tables hold half of each even entry, rounded down, but for one cell.

  function Odd8(y: nat, x: nat): nat {
    8 * Quad(3, y % 2, x % 2) + 2 * Quad(3, y / 2 % 2, x / 2 % 2) + Quad(3, y / 4 % 2, x / 4 % 2) / 2
  }

  function Odd16(y: nat, x: nat): nat {
    32 * Quad(4, y % 2, x % 2) + 8 * Quad(4, y / 2 % 2, x / 2 % 2) + 2 * Quad(4, y / 4 % 2, x / 4 % 2) + Quad(4, y / 8 % 2, x / 8 % 2) / 2
  }

  function OddRow8(y: nat): seq<nat> {
    [Odd8(y, 0), Odd8(y, 1), Odd8(y, 2), Odd8(y, 3), Odd8(y, 4), Odd8(y, 5), Odd8(y, 6), Odd8(y, 7)]
  }

  function OddRow16(y: nat): seq<nat> {
    [Odd16(y, 0), Odd16(y, 1), Odd16(y, 2), Odd16(y, 3), Odd16(y, 4), Odd16(y, 5), Odd16(y, 6), Odd16(y, 7),
     Odd16(y, 8), Odd16(y, 9), Odd16(y, 10), Odd16(y, 11), Odd16(y, 12), Odd16(y, 13), Odd16(y, 14), Odd16(y, 15)]
  }

  lemma OddRows8_0()
    ensures DITHER_8X8A[0..2] == [OddRow8(0), OddRow8(1)]
  {
  }

  lemma OddRows8_2()
    ensures DITHER_8X8A[2..4] == [OddRow8(2), OddRow8(3)]
  {
  }

  lemma OddRows8_4()
    ensures DITHER_8X8A[4..6] == [OddRow8(4), OddRow8(5)]
  {
  }

  lemma OddRows8_6()
    ensures DITHER_8X8A[6..8] == [OddRow8(6), OddRow8(7)]
  {
  }

  /** The row with the odd one out. */
  function PrintedRow9(): seq<nat> {
    [75, Odd16(9, 1), Odd16(9, 2), Odd16(9, 3), Odd16(9, 4), Odd16(9, 5), Odd16(9, 6), Odd16(9, 7),
     Odd16(9, 8), Odd16(9, 9), Odd16(9, 10), Odd16(9, 11), Odd16(9, 12), Odd16(9, 13), Odd16(9, 14), Odd16(9, 15)]
  }

  lemma OddRows16_0()
    ensures DITHER_16X16A[0..2] == [OddRow16(0), OddRow16(1)]
  {
  }

  lemma OddRows16_2()
    ensures DITHER_16X16A[2..4] == [OddRow16(2), OddRow16(3)]
  {
  }

  lemma OddRows16_4()
    ensures DITHER_16X16A[4..6] == [OddRow16(4), OddRow16(5)]
  {
  }

  lemma OddRows16_6()
    ensures DITHER_16X16A[6..8] == [OddRow16(6), OddRow16(7)]
  {
  }

  lemma OddRows16_8()
    ensures DITHER_16X16A[8..10] == [OddRow16(8), PrintedRow9()]
  {
  }

  lemma OddRows16_10()
    ensures DITHER_16X16A[10..12] == [OddRow16(10), OddRow16(11)]
  {
  }

  lemma OddRows16_12()
    ensures DITHER_16X16A[12..14] == [OddRow16(12), OddRow16(13)]
  {
  }

  lemma OddRows16_14()
    ensures DITHER_16X16A[14..16] == [OddRow16(14), OddRow16(15)]
  {
  }

  lemma OddRow8Is(y: nat)
    requires y < 8
    ensures |DITHER_8X8A| == 8 && DITHER_8X8A[y] == OddRow8(y)
  {
    hide OddRow8;
    OddRows8_0();
    OddRows8_2();
    OddRows8_4();
    OddRows8_6();
    PickPair(DITHER_8X8A, y / 2 * 2, y, z => OddRow8(z));
  }

  /** Row y as the source has it. */
  function PrintedRow16(y: nat): seq<nat> {
    if y == 9 then PrintedRow9() else OddRow16(y)
  }

  lemma UpperOddRows(y: nat)
    requires y < 8
    ensures |DITHER_16X16A| == 16 && DITHER_16X16A[y] == PrintedRow16(y)
  {
    hide OddRow16, PrintedRow9;
    OddRows16_0();
    OddRows16_2();
    OddRows16_4();
    OddRows16_6();
    PickPair(DITHER_16X16A, y / 2 * 2, y, z => PrintedRow16(z));
  }

  lemma LowerOddRows(y: nat)
    requires 8 <= y < 16
    ensures |DITHER_16X16A| == 16 && DITHER_16X16A[y] == PrintedRow16(y)
  {
    hide OddRow16, PrintedRow9;
    OddRows16_8();
    OddRows16_10();
    OddRows16_12();
    OddRows16_14();
    PickPair(DITHER_16X16A, y / 2 * 2, y, z => PrintedRow16(z));
  }

  lemma OddDisplays(y: nat, x: nat)
    ensures x < 8 ==> |OddRow8(y)| == 8 && OddRow8(y)[x] == Odd8(y, x)
    ensures x < 16 ==> |PrintedRow16(y)| == 16 && PrintedRow16(y)[x] == if y == 9 && x == 0 then 75 else Odd16(y, x)
  {
    hide Odd8, Odd16;
  }

  lemma SmallOddTables(order: nat, y: nat, x: nat)
    requires 1 <= order <= 2 && y < Side(order) && x < Side(order)
    ensures |OddMatrix(order)| == Side(order) == |OddMatrix(order)[y]|
    ensures |Matrix(order)| == Side(order) == |Matrix(order)[y]| && OddMatrix(order)[y][x] == Matrix(order)[y][x] / 2
  {
    assert Side(0) == 1 && Side(1) == 2 && Side(2) == 4;
  }

  /** Cell (9, 0) of the 16x16 table for odd differences holds 75 where its pattern has 65. */
  predicate Misprint(order: nat, y: nat, x: nat) {
    order == 4 && y == 9 && x == 0
  }

  lemma OddIsHalf(y: nat, x: nat)
    ensures Odd8(y, x) == Flat8(y, x) / 2 && Odd16(y, x) == Flat16(y, x) / 2
  {
    hide Quad;
  }

  /** Every odd table is half the even one of its size, but for that cell. */
  lemma OddTableIsHalf(order: nat, y: nat, x: nat)
    requires IsOrder(order) && y < Side(order) && x < Side(order)
    ensures |OddMatrix(order)| == Side(order) == |OddMatrix(order)[y]|
    ensures OddMatrix(order)[y][x] == if Misprint(order, y, x) then 75 else Bayer(order, order, y, x) / 2
  {
    hide Flat8, Flat16, Bayer, Odd8, Odd16, OddRow8, PrintedRow16;
    assert Side(0) == 1 && Side(1) == 2 && Side(2) == 4 && Side(3) == 8;
    if order <= 2 {
      SmallOddTables(order, y, x);
      SmallTables(order, y, x);
    } else {
      FlatIsBayer(y, x);
      OddIsHalf(y, x);
      OddDisplays(y, x);
      if order == 3 { OddRow8Is(y); } else if y < 8 { UpperOddRows(y); } else { LowerOddRows(y); }
    }
  }
}
