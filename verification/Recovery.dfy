/** Every block of a symbol is a Reed-Solomon codeword, and survives damage up to half its check bytes. */
module Recovery {
  import opened Basics
  import opened Capacity
  import opened ErrorTolerance
  import opened Interleave
  import opened ReedSolomon
  import opened Segments
  import opened Symbols

  /** Data and check bytes of block `b`, as a reader de-interleaves them. */
  function BlockWord(l: Layout, flat: Poly, b: nat): (w: Poly)
    requires l.Valid() && |flat| == l.raw && b < l.numBlocks
    ensures |w| == l.BlockLen(b) + l.eccLen
  {
    ReadBlockData(l, flat, b) + ReadBlockCheck(l, flat, b)
  }

  lemma EveryBlockIsCodeword(l: Layout, data: Poly, b: nat)
    requires l.Valid() && |data| == l.raw - l.eccLen * l.numBlocks && b < l.numBlocks
    ensures IsCodeword(BlockWord(l, CodewordsOf(l, data), b), l.eccLen)
  {
    hide CodewordsOf, IsCodeword, Generator, Remainder, ReadBlockData, ReadBlockCheck;
    CodewordsCarryData(l, data);
    GeneratorIsMonic(l.eccLen);
    var divisor := Generator(l.eccLen)[1..];
    assert [1] + divisor == Generator(l.eccLen);
    MessageWithCheckIsCodeword(Block(l, data, b), divisor, l.eccLen);
  }

  lemma BlocksAreShort(ver: int, ecl: Ecc, b: nat)
    requires ValidVersion(ver) && b < LayoutOf(ver, ecl).numBlocks
    ensures LayoutOf(ver, ecl).BlockLen(b) + LayoutOf(ver, ecl).eccLen <= 255
  {
    hide EccLength, NumBlocks, NumRawDataModules, NumDataCodewords;
    var l := LayoutOf(ver, ecl);
    BlockParameters(ver, ecl);
    QuotientBelow(l.raw, l.numBlocks, 254);
  }

  lemma QuotientBelow(n: nat, d: nat, k: nat)
    requires n < k * d
    ensures d > 0 && n / d < k
  {
    assert (n / d) * d <= n;
    CancelFactor(n / d, k, d);
  }

  /**
   * If what is read in block `b` is wrong in at most half as many bytes as the block has check
   * bytes, the only codeword that close to it is the one the symbol was drawn with.
   */
  lemma DamagedBlockIsRecovered(ver: int, ecl: Ecc, data: Poly, read: Poly, b: nat, nearest: Poly)
    requires ValidVersion(ver) && |data| == NumDataCodewords(ver, ecl) && |read| == LayoutOf(ver, ecl).raw
    requires b < LayoutOf(ver, ecl).numBlocks
    requires var l := LayoutOf(ver, ecl);
             var sent, got := BlockWord(l, CodewordsOf(l, data), b), BlockWord(l, read, b);
             && 2 * Differences(got, sent, |got|) <= l.eccLen
             && |nearest| == |got| && IsCodeword(nearest, l.eccLen) && 2 * Differences(got, nearest, |got|) <= l.eccLen
    ensures var l := LayoutOf(ver, ecl); nearest[..l.BlockLen(b)] == Block(l, data, b)
  {
    hide CodewordsOf, IsCodeword, Differences, ReadBlockData, ReadBlockCheck, Generator, Remainder, NumDataCodewords, EccLength, NumBlocks;
    var l := LayoutOf(ver, ecl);
    var sent, got := BlockWord(l, CodewordsOf(l, data), b), BlockWord(l, read, b);
    EveryBlockIsCodeword(l, data, b);
    BlocksAreShort(ver, ecl, b);
    UniqueNearestCodeword(got, nearest, sent, l.eccLen);
    CodewordsCarryData(l, data);
  }
}
