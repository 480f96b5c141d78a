/** A finished symbol, cell by cell, and the two facts about masking that the mask search relies on. */
module Symbols {
  import opened BitBuffers
  import opened Capacity
  import opened Grids
  import opened Interleave
  import opened Masking
  import opened Patterns
  import opened Penalty
  import opened Segments
  import opened ZigZag

  function LayoutOf(ver: int, ecl: Ecc): (l: Layout)
    requires ValidVersion(ver)
    ensures l.Valid() && l.raw - l.eccLen * l.numBlocks == NumDataCodewords(ver, ecl)
    ensures l.raw == NumRawDataModules(ver) / 8
  {
    BlockParameters(ver, ecl);
    Layout(NumBlocks(ver, ecl), EccLength(ver, ecl), NumRawDataModules(ver) / 8)
  }

  /** The function modules of a version. */
  function Marks(ver: int): (g: Grid)
    requires ValidVersion(ver)
    ensures Square(g, SizeOf(ver))
    ensures forall x, y :: InGrid(SizeOf(ver), x, y) ==> g[y][x] == FunctionCell(ver, x, y)
  {
    var n := SizeOf(ver);
    seq(n, y requires 0 <= y < n => seq(n, x requires 0 <= x < n => FunctionCell(ver, x, y)))
  }

  /** The codeword bit at a module outside the function patterns; remainder modules stay white. */
  predicate DataColour(ver: int, bits: Bits, x: int, y: int)
    requires ValidVersion(ver) && InGrid(SizeOf(ver), x, y) && x != 6
  {
    var n := SizeOf(ver);
    IndexInScan(n, x, y);
    var i := Rank(n, Marks(ver), IndexOf(n, x, y));
    i < |bits| && bits[i]
  }

  /** The symbol before masking, with the format bits of mask `msk`. */
  function BaseGrid(ver: int, ecl: Ecc, bits: Bits, msk: int): (g: Grid)
    requires ValidVersion(ver) && ValidMask(msk)
    ensures Square(g, SizeOf(ver))
    ensures forall x, y :: InGrid(SizeOf(ver), x, y) ==>
              g[y][x] == if FunctionCell(ver, x, y) then FunctionColour(ver, FormatWord(ecl, msk), x, y)
                         else DataColour(ver, bits, x, y)
  {
    var n := SizeOf(ver);
    seq(n, y requires 0 <= y < n => seq(n, x requires 0 <= x < n =>
      if FunctionCell(ver, x, y) then FunctionColour(ver, FormatWord(ecl, msk), x, y) else DataColour(ver, bits, x, y)))
  }

  /** The finished symbol: function patterns, and codeword bits under the mask. */
  function SymbolGrid(ver: int, ecl: Ecc, bits: Bits, msk: int): (g: Grid)
    requires ValidVersion(ver) && ValidMask(msk)
    ensures Square(g, SizeOf(ver))
  {
    Masked(BaseGrid(ver, ecl, bits, msk), Marks(ver), SizeOf(ver), msk)
  }

  /** Overwriting the format bits of a masked symbol is the same as masking with those bits from the start. */
  lemma RedrawnFormat(ver: int, ecl: Ecc, bits: Bits, f: int, msk: int, g: Grid)
    requires ValidVersion(ver) && ValidMask(f) && ValidMask(msk) && Square(g, SizeOf(ver))
    requires var n := SizeOf(ver);
             var masked := Masked(BaseGrid(ver, ecl, bits, f), Marks(ver), n, msk);
             forall x, y :: InGrid(n, x, y) ==>
               g[y][x] == if FormatCell(n, x, y) then FormatColour(n, FormatWord(ecl, msk), x, y) else masked[y][x]
    ensures g == SymbolGrid(ver, ecl, bits, msk)
  {
    hide Inverts, DataColour, FormatWord, FormatColour, FinderCell, TimingCell, VersionCell, AlignmentCell, AlignmentColour,
      FinderColour, TimingColour, VersionColour, AlignPositions;
    SameGrid(g, SymbolGrid(ver, ecl, bits, msk), SizeOf(ver));
  }

  /** Masking a finished symbol again gives back the unmasked one. */
  lemma Unmask(ver: int, ecl: Ecc, bits: Bits, msk: int)
    requires ValidVersion(ver) && ValidMask(msk)
    ensures Masked(SymbolGrid(ver, ecl, bits, msk), Marks(ver), SizeOf(ver), msk) == BaseGrid(ver, ecl, bits, msk)
  {
    hide BaseGrid, Marks, Masked;
    MaskedTwice(BaseGrid(ver, ecl, bits, msk), Marks(ver), SizeOf(ver), msk);
  }

  /** The lowest mask of those whose finished symbols score least. */
  ghost predicate BestMask(ver: int, ecl: Ecc, bits: Bits, msk: int)
    requires ValidVersion(ver)
  {
    && ValidMask(msk)
    && forall m :: ValidMask(m) ==>
         var n := SizeOf(ver);
         var best, other := Score(SymbolGrid(ver, ecl, bits, msk), n), Score(SymbolGrid(ver, ecl, bits, m), n);
         best <= other && (m < msk ==> best < other)
  }
}
