/** The two constant tables once more, level by level as they are published, ten versions a line. */
module CapacityTables {
  import opened Capacity
  import opened Segments

  /** Check codewords in a block, for versions 10 * decade + 1 to 10 * decade + 10. */
  function CheckBytesInBlock(ecl: Ecc, decade: nat): (s: seq<int>)
    requires decade < 4
    ensures |s| == 10
  {
    match ecl
    case Low =>
      if decade == 0 then [7, 10, 15, 20, 26, 18, 20, 24, 30, 18]
      else if decade == 1 then [20, 24, 26, 30, 22, 24, 28, 30, 28, 28]
      else if decade == 2 then [28, 28, 30, 30, 26, 28, 30, 30, 30, 30]
      else [30, 30, 30, 30, 30, 30, 30, 30, 30, 30]
    case Medium =>
      if decade == 0 then [10, 16, 26, 18, 24, 16, 18, 22, 22, 26]
      else if decade == 1 then [30, 22, 22, 24, 24, 28, 28, 26, 26, 26]
      else if decade == 2 then [26, 28, 28, 28, 28, 28, 28, 28, 28, 28]
      else [28, 28, 28, 28, 28, 28, 28, 28, 28, 28]
    case Quartile =>
      if decade == 0 then [13, 22, 18, 26, 18, 24, 18, 22, 20, 24]
      else if decade == 1 then [28, 26, 24, 20, 30, 24, 28, 28, 26, 30]
      else if decade == 2 then [28, 30, 30, 30, 30, 28, 30, 30, 30, 30]
      else [30, 30, 30, 30, 30, 30, 30, 30, 30, 30]
    case High =>
      if decade == 0 then [17, 28, 22, 16, 22, 28, 26, 26, 24, 28]
      else if decade == 1 then [24, 28, 22, 24, 24, 30, 28, 28, 26, 28]
      else if decade == 2 then [30, 24, 30, 30, 30, 30, 30, 30, 30, 30]
      else [30, 30, 30, 30, 30, 30, 30, 30, 30, 30]
  }

  /** Blocks, for the same versions. */
  function BlocksInSymbol(ecl: Ecc, decade: nat): (s: seq<int>)
    requires decade < 4
    ensures |s| == 10
  {
    match ecl
    case Low =>
      if decade == 0 then [1, 1, 1, 1, 1, 2, 2, 2, 2, 4]
      else if decade == 1 then [4, 4, 4, 4, 6, 6, 6, 6, 7, 8]
      else if decade == 2 then [8, 9, 9, 10, 12, 12, 12, 13, 14, 15]
      else [16, 17, 18, 19, 19, 20, 21, 22, 24, 25]
    case Medium =>
      if decade == 0 then [1, 1, 1, 2, 2, 4, 4, 4, 5, 5]
      else if decade == 1 then [5, 8, 9, 9, 10, 10, 11, 13, 14, 16]
      else if decade == 2 then [17, 17, 18, 20, 21, 23, 25, 26, 28, 29]
      else [31, 33, 35, 37, 38, 40, 43, 45, 47, 49]
    case Quartile =>
      if decade == 0 then [1, 1, 2, 2, 4, 4, 6, 6, 8, 8]
      else if decade == 1 then [8, 10, 12, 16, 12, 17, 16, 18, 21, 20]
      else if decade == 2 then [23, 23, 25, 27, 29, 34, 34, 35, 38, 40]
      else [43, 45, 48, 51, 53, 56, 59, 62, 65, 68]
    case High =>
      if decade == 0 then [1, 1, 2, 4, 4, 4, 5, 6, 8, 8]
      else if decade == 1 then [11, 11, 16, 16, 18, 16, 19, 21, 25, 25]
      else if decade == 2 then [25, 34, 30, 32, 35, 37, 40, 42, 45, 48]
      else [51, 54, 57, 60, 63, 66, 70, 74, 77, 81]
  }

  lemma AgreeFrom1(ecl: Ecc, k: nat)
    requires k < 10
    ensures EccLength(1 + k, ecl) == CheckBytesInBlock(ecl, 0)[k]
    ensures NumBlocks(1 + k, ecl) == BlocksInSymbol(ecl, 0)[k]
  {
    match k
    case 0 =>
    case 1 =>
    case 2 =>
    case 3 =>
    case 4 =>
    case 5 =>
    case 6 =>
    case 7 =>
    case 8 =>
    case _ =>
  }

  lemma AgreeFrom11(ecl: Ecc, k: nat)
    requires k < 10
    ensures EccLength(11 + k, ecl) == CheckBytesInBlock(ecl, 1)[k]
    ensures NumBlocks(11 + k, ecl) == BlocksInSymbol(ecl, 1)[k]
  {
    match k
    case 0 =>
    case 1 =>
    case 2 =>
    case 3 =>
    case 4 =>
    case 5 =>
    case 6 =>
    case 7 =>
    case 8 =>
    case _ =>
  }

  lemma AgreeFrom21(ecl: Ecc, k: nat)
    requires k < 10
    ensures EccLength(21 + k, ecl) == CheckBytesInBlock(ecl, 2)[k]
    ensures NumBlocks(21 + k, ecl) == BlocksInSymbol(ecl, 2)[k]
  {
    match k
    case 0 =>
    case 1 =>
    case 2 =>
    case 3 =>
    case 4 =>
    case 5 =>
    case 6 =>
    case 7 =>
    case 8 =>
    case _ =>
  }

  lemma AgreeFrom31(ecl: Ecc, k: nat)
    requires k < 10
    ensures EccLength(31 + k, ecl) == CheckBytesInBlock(ecl, 3)[k]
    ensures NumBlocks(31 + k, ecl) == BlocksInSymbol(ecl, 3)[k]
  {
    match k
    case 0 =>
    case 1 =>
    case 2 =>
    case 3 =>
    case 4 =>
    case 5 =>
    case 6 =>
    case 7 =>
    case 8 =>
    case _ =>
  }

  /** The rows by version and the columns by level hold the same entries. */
  lemma TablesAgree(ver: int, ecl: Ecc)
    requires ValidVersion(ver)
    ensures EccLength(ver, ecl) == CheckBytesInBlock(ecl, (ver - 1) / 10)[(ver - 1) % 10]
    ensures NumBlocks(ver, ecl) == BlocksInSymbol(ecl, (ver - 1) / 10)[(ver - 1) % 10]
  {
    hide EccLength, NumBlocks, CheckBytesInBlock, BlocksInSymbol;
    var d, k := (ver - 1) / 10, (ver - 1) % 10;
    if d == 0 {
      AgreeFrom1(ecl, k);
    } else if d == 1 {
      AgreeFrom11(ecl, k);
    } else if d == 2 {
      AgreeFrom21(ecl, k);
    } else {
      AgreeFrom31(ecl, k);
    }
  }
}
