/** Symbol capacity: the two constant tables, row by row, and the counts derived from them. */
module Capacity {
  import opened Segments

  datatype Ecc = Low | Medium | Quartile | High

  function Level(ecl: Ecc): (i: nat)
    ensures i < 4
  {
    match ecl
    case Low => 0
    case Medium => 1
    case Quartile => 2
    case High => 3
  }

  /** The entries of both tables for one version: check codewords in a block, and blocks, at each level. */
  datatype Row = Row(low: int, medium: int, quartile: int, high: int,
                     lowBlocks: int, mediumBlocks: int, quartileBlocks: int, highBlocks: int)

  function TableRow(ver: int): Row
    requires ValidVersion(ver)
  {
    match ver
    case 1 => Row(7, 10, 13, 17, 1, 1, 1, 1)
    case 2 => Row(10, 16, 22, 28, 1, 1, 1, 1)
    case 3 => Row(15, 26, 18, 22, 1, 1, 2, 2)
    case 4 => Row(20, 18, 26, 16, 1, 2, 2, 4)
    case 5 => Row(26, 24, 18, 22, 1, 2, 4, 4)
    case 6 => Row(18, 16, 24, 28, 2, 4, 4, 4)
    case 7 => Row(20, 18, 18, 26, 2, 4, 6, 5)
    case 8 => Row(24, 22, 22, 26, 2, 4, 6, 6)
    case 9 => Row(30, 22, 20, 24, 2, 5, 8, 8)
    case 10 => Row(18, 26, 24, 28, 4, 5, 8, 8)
    case 11 => Row(20, 30, 28, 24, 4, 5, 8, 11)
    case 12 => Row(24, 22, 26, 28, 4, 8, 10, 11)
    case 13 => Row(26, 22, 24, 22, 4, 9, 12, 16)
    case 14 => Row(30, 24, 20, 24, 4, 9, 16, 16)
    case 15 => Row(22, 24, 30, 24, 6, 10, 12, 18)
    case 16 => Row(24, 28, 24, 30, 6, 10, 17, 16)
    case 17 => Row(28, 28, 28, 28, 6, 11, 16, 19)
    case 18 => Row(30, 26, 28, 28, 6, 13, 18, 21)
    case 19 => Row(28, 26, 26, 26, 7, 14, 21, 25)
    case 20 => Row(28, 26, 30, 28, 8, 16, 20, 25)
    case 21 => Row(28, 26, 28, 30, 8, 17, 23, 25)
    case 22 => Row(28, 28, 30, 24, 9, 17, 23, 34)
    case 23 => Row(30, 28, 30, 30, 9, 18, 25, 30)
    case 24 => Row(30, 28, 30, 30, 10, 20, 27, 32)
    case 25 => Row(26, 28, 30, 30, 12, 21, 29, 35)
    case 26 => Row(28, 28, 28, 30, 12, 23, 34, 37)
    case 27 => Row(30, 28, 30, 30, 12, 25, 34, 40)
    case 28 => Row(30, 28, 30, 30, 13, 26, 35, 42)
    case 29 => Row(30, 28, 30, 30, 14, 28, 38, 45)
    case 30 => Row(30, 28, 30, 30, 15, 29, 40, 48)
    case 31 => Row(30, 28, 30, 30, 16, 31, 43, 51)
    case 32 => Row(30, 28, 30, 30, 17, 33, 45, 54)
    case 33 => Row(30, 28, 30, 30, 18, 35, 48, 57)
    case 34 => Row(30, 28, 30, 30, 19, 37, 51, 60)
    case 35 => Row(30, 28, 30, 30, 19, 38, 53, 63)
    case 36 => Row(30, 28, 30, 30, 20, 40, 56, 66)
    case 37 => Row(30, 28, 30, 30, 21, 43, 59, 70)
    case 38 => Row(30, 28, 30, 30, 22, 45, 62, 74)
    case 39 => Row(30, 28, 30, 30, 24, 47, 65, 77)
    case _ => Row(30, 28, 30, 30, 25, 49, 68, 81)
  }

  function EccLength(ver: int, ecl: Ecc): int
    requires ValidVersion(ver)
  {
    match ecl
    case Low => TableRow(ver).low
    case Medium => TableRow(ver).medium
    case Quartile => TableRow(ver).quartile
    case High => TableRow(ver).high
  }

  function NumBlocks(ver: int, ecl: Ecc): int
    requires ValidVersion(ver)
  {
    match ecl
    case Low => TableRow(ver).lowBlocks
    case Medium => TableRow(ver).mediumBlocks
    case Quartile => TableRow(ver).quartileBlocks
    case High => TableRow(ver).highBlocks
  }

  function NumRawDataModules(ver: int): (n: int)
    requires ValidVersion(ver)
    ensures 208 <= n <= 29648
  {
    var result := (16 * ver + 128) * ver + 64;
    if ver < 2 then result
    else
      var numAlign := ver / 7 + 2;
      result - ((25 * numAlign - 10) * numAlign - 55) - (if ver >= 7 then 36 else 0)
  }

  function NumDataCodewords(ver: int, ecl: Ecc): int
    requires ValidVersion(ver)
  {
    NumRawDataModules(ver) / 8 - EccLength(ver, ecl) * NumBlocks(ver, ecl)
  }

  // ----- What the tables guarantee -----

  predicate SoundEntry(raw: int, ecc: int, blocks: int) {
    1 <= ecc <= 255 && 1 <= blocks && ecc * blocks < raw < 254 * blocks
  }

  /** Every level leaves room for data, and no block is as long as the field has nonzero elements. */
  predicate SoundRow(raw: int, r: Row) {
    && SoundEntry(raw, r.low, r.lowBlocks) && SoundEntry(raw, r.medium, r.mediumBlocks)
    && SoundEntry(raw, r.quartile, r.quartileBlocks) && SoundEntry(raw, r.high, r.highBlocks)
  }

  lemma RowsFrom1(ver: int)
    requires 1 <= ver <= 10
    ensures SoundRow(NumRawDataModules(ver) / 8, TableRow(ver))
  {
  }

  lemma RowsFrom11(ver: int)
    requires 11 <= ver <= 20
    ensures SoundRow(NumRawDataModules(ver) / 8, TableRow(ver))
  {
  }

  lemma RowsFrom21(ver: int)
    requires 21 <= ver <= 30
    ensures SoundRow(NumRawDataModules(ver) / 8, TableRow(ver))
  {
  }

  lemma RowsFrom31(ver: int)
    requires 31 <= ver <= 40
    ensures SoundRow(NumRawDataModules(ver) / 8, TableRow(ver))
  {
  }

  lemma EveryRowIsSound(ver: int)
    requires ValidVersion(ver)
    ensures SoundRow(NumRawDataModules(ver) / 8, TableRow(ver))
  {
    hide SoundRow, TableRow, NumRawDataModules;
    if ver <= 10 {
      RowsFrom1(ver);
    } else if ver <= 20 {
      RowsFrom11(ver);
    } else if ver <= 30 {
      RowsFrom21(ver);
    } else {
      RowsFrom31(ver);
    }
  }

  /** Every level divides the raw codewords into data and check bytes. */
  lemma BlockParameters(ver: int, ecl: Ecc)
    requires ValidVersion(ver)
    ensures SoundEntry(NumRawDataModules(ver) / 8, EccLength(ver, ecl), NumBlocks(ver, ecl))
    ensures NumRawDataModules(ver) / 8 == NumDataCodewords(ver, ecl) + EccLength(ver, ecl) * NumBlocks(ver, ecl)
    ensures NumDataCodewords(ver, ecl) > 0
  {
    hide TableRow, NumRawDataModules;
    EveryRowIsSound(ver);
  }
}
