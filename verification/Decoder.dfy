/**
 * A reader that takes nothing but the grid of a symbol, and the theorem that it returns the
 * data codewords the symbol was drawn from.
 */
module Decoder {
  import opened Basics
  import opened BitBuffers
  import opened Capacity
  import opened Codewords
  import opened Grids
  import opened Interleave
  import opened Masking
  import opened Patterns
  import opened Room
  import opened Segments
  import opened SegmentStream
  import opened Symbols
  import opened ZigZag

  // ----- Format information -----

  /** The mask number in the first copy of the format bits. */
  function ReadMask(g: Grid): (m: int)
    requires Square(g, |g|) && |g| >= 21
    ensures ValidMask(m)
  {
    (if g[8][2] then 0 else 4) + (if g[8][3] then 2 else 0) + (if g[8][4] then 0 else 1)
  }

  /** The error correction level there. */
  function ReadLevel(g: Grid): Ecc
    requires Square(g, |g|) && |g| >= 21
  {
    if g[8][0] then (if g[8][1] then Low else Medium) else (if g[8][1] then Quartile else High)
  }

  /** Bits 10 to 14 of a format word, as the reader sees them. */
  predicate ShowsFormat(w: bv16, ecl: Ecc, msk: int)
    requires ValidMask(msk)
  {
    && WordBit(w, 14) == (ecl == Low || ecl == Medium)
    && WordBit(w, 13) == (ecl == Low || ecl == Quartile)
    && WordBit(w, 12) == (msk < 4)
    && WordBit(w, 11) == (msk % 4 >= 2)
    && WordBit(w, 10) == (msk % 2 == 0)
  }

  /** The check bits do not disturb the five data bits. */
  lemma TopBits(data: bv16, rem: bv16)
    requires data < 32 && rem < 1024
    ensures var w := FormatJoin(data, rem);
            && WordBit(w, 14) == !WordBit(data, 4) && WordBit(w, 13) == WordBit(data, 3)
            && WordBit(w, 12) == !WordBit(data, 2) && WordBit(w, 11) == WordBit(data, 1) && WordBit(w, 10) == !WordBit(data, 0)
  {
  }

  lemma FormatWordShows(ecl: Ecc, msk: int)
    requires ValidMask(msk)
    ensures ShowsFormat(FormatWord(ecl, msk), ecl, msk)
  {
    hide WordBit, FormatRem, FormatData, FormatJoin;
    var data := FormatData(ecl, msk);
    TopBits(data, FormatRem(data, 10));
    FormatDataBits(ecl, msk);
  }

  lemma FormatDataBits(ecl: Ecc, msk: int)
    requires ValidMask(msk)
    ensures var d := FormatData(ecl, msk);
            && WordBit(d, 4) == (ecl == Quartile || ecl == High)
            && WordBit(d, 3) == (ecl == Low || ecl == Quartile)
            && WordBit(d, 2) == (msk >= 4) && WordBit(d, 1) == (msk % 4 >= 2) && WordBit(d, 0) == (msk % 2 == 1)
  {
    var level, mask := FormatLevel(ecl), FormatData(Medium, msk);
    assert level == 0 || level == 1 || level == 2 || level == 3;
    assert FormatData(ecl, msk) == (level << 3) | mask && mask < 8;
    JoinBits(level, mask);
  }

  lemma JoinBits(level: bv16, mask: bv16)
    requires level < 4 && mask < 8
    ensures var d := (level << 3) | mask;
            && WordBit(d, 4) == WordBit(level, 1) && WordBit(d, 3) == WordBit(level, 0)
            && WordBit(d, 2) == WordBit(mask, 2) && WordBit(d, 1) == WordBit(mask, 1) && WordBit(d, 0) == WordBit(mask, 0)
  {
  }

  /** The reader finds level and mask of a finished symbol. */
  lemma FormatRoundTrip(ver: int, ecl: Ecc, bits: Bits, msk: int)
    requires ValidVersion(ver) && ValidMask(msk)
    ensures var g := SymbolGrid(ver, ecl, bits, msk);
            ReadMask(g) == msk && ReadLevel(g) == ecl
  {
    hide WordBit, FormatWord, FunctionCell, DataColour, Inverts;
    var n, g, w := SizeOf(ver), SymbolGrid(ver, ecl, bits, msk), FormatWord(ecl, msk);
    FormatWordShows(ecl, msk);
    forall x | 0 <= x <= 4
      ensures g[8][x] == WordBit(w, 14 - x)
    {
      FormatIsFunction(ver, x, 8);
      assert g[8][x] == BaseGrid(ver, ecl, bits, msk)[8][x];
    }
  }

  // ----- Both copies of format and version -----

  /** Where bit `i` of the format word is drawn first: down from the top left finder's right side, then left below it. */
  function FirstPlace(i: nat): (int, int) {
    if i <= 5 then (8, i) else if i == 6 then (8, 7) else if i == 7 then (8, 8) else if i == 8 then (7, 8) else (14 - i, 8)
  }

  /** And a second time: from the right edge along the top right finder, then down along the lower left one. */
  function SecondPlace(n: nat, i: nat): (int, int) {
    if i < 8 then (n - 1 - i, 8) else (8, n - 15 + i)
  }

  lemma FunctionShown(ver: int, ecl: Ecc, bits: Bits, msk: int, x: int, y: int)
    requires ValidVersion(ver) && ValidMask(msk) && InGrid(SizeOf(ver), x, y) && FunctionCell(ver, x, y)
    ensures SymbolGrid(ver, ecl, bits, msk)[y][x] == FunctionColour(ver, FormatWord(ecl, msk), x, y)
  {
    hide FormatWord, FunctionCell, FunctionColour, DataColour, Inverts;
    assert SymbolGrid(ver, ecl, bits, msk)[y][x] == BaseGrid(ver, ecl, bits, msk)[y][x];
  }

  /** Every finished symbol shows each bit of its format word in both places, and the dark module. */
  lemma FormatCopies(ver: int, ecl: Ecc, bits: Bits, msk: int, i: nat)
    requires ValidVersion(ver) && ValidMask(msk) && i < 15
    ensures var g, n := SymbolGrid(ver, ecl, bits, msk), SizeOf(ver);
            var (x, y), (x', y') := FirstPlace(i), SecondPlace(n, i);
            && g[y][x] == WordBit(FormatWord(ecl, msk), i) && g[y'][x'] == WordBit(FormatWord(ecl, msk), i)
            && g[n - 8][8]
  {
    hide FormatWord, FunctionCell, FunctionColour, SymbolGrid, WordBit;
    var n := SizeOf(ver);
    var (x, y) := FirstPlace(i);
    var (x', y') := SecondPlace(n, i);
    FormatIsFunction(ver, x, y);
    FunctionShown(ver, ecl, bits, msk, x, y);
    FormatIsFunction(ver, x', y');
    FunctionShown(ver, ecl, bits, msk, x', y');
    FormatIsFunction(ver, 8, n - 8);
    FunctionShown(ver, ecl, bits, msk, 8, n - 8);
  }

  function WordOfVersion(ver: int): bv32
    requires ValidVersion(ver)
  {
    VersionWord(ver as bv32)
  }

  lemma VersionIsFunction(ver: int, w: bv16, x: int, y: int)
    requires 7 <= ver <= 40 && VersionCell(ver, SizeOf(ver), x, y)
    ensures FunctionCell(ver, x, y)
    ensures FunctionColour(ver, w, x, y) == VersionColour(SizeOf(ver), WordOfVersion(ver), x, y)
  {
    hide VersionWord, LongBit, AlignmentCell, AlignmentColour, FinderColour, FormatColour;
  }

  /** From version 7 on, every finished symbol shows each bit of its version word in both blocks of three by six. */
  lemma VersionCopies(ver: int, ecl: Ecc, bits: Bits, msk: int, i: nat)
    requires 7 <= ver <= 40 && ValidMask(msk) && i < 18
    ensures var g, n := SymbolGrid(ver, ecl, bits, msk), SizeOf(ver);
            && g[i / 3][n - 11 + i % 3] == LongBit(WordOfVersion(ver), i)
            && g[n - 11 + i % 3][i / 3] == LongBit(WordOfVersion(ver), i)
  {
    hide FormatWord, FunctionCell, FunctionColour, SymbolGrid, LongBit, WordOfVersion;
    var n := SizeOf(ver);
    var a, b := n - 11 + i % 3, i / 3;
    VersionIsFunction(ver, FormatWord(ecl, msk), a, b);
    FunctionShown(ver, ecl, bits, msk, a, b);
    VersionIsFunction(ver, FormatWord(ecl, msk), b, a);
    FunctionShown(ver, ecl, bits, msk, b, a);
  }

  lemma FormatIsFunction(ver: int, x: int, y: int)
    requires ValidVersion(ver) && FormatCell(SizeOf(ver), x, y)
    ensures FunctionCell(ver, x, y)
    ensures forall w :: FunctionColour(ver, w, x, y) == FormatColour(SizeOf(ver), w, x, y)
  {
  }

  // ----- Codewords and data -----

  /** The version a grid's size stands for, if any. */
  function ReadVersion(g: Grid): (r: Option<int>)
    ensures r.Some? ==> ValidVersion(r.value) && Square(g, SizeOf(r.value))
  {
    if |g| >= 21 && |g| <= 177 && |g| % 4 == 1 && Square(g, |g|) then Some((|g| - 17) / 4) else None
  }

  /** The bits under the mask, in scan order. */
  function ReadBits(g: Grid, ver: int): (b: Bits)
    requires ValidVersion(ver) && Square(g, SizeOf(ver))
    ensures |b| == NumRawDataModules(ver)
  {
    var n := SizeOf(ver);
    RoomForCodewords(ver);
    ReadScan(n, Masked(g, Marks(ver), n, ReadMask(g)), Marks(ver), NumCells(n))
  }

  function ReadCodewords(g: Grid, ver: int): (c: seq<bv8>)
    requires ValidVersion(ver) && Square(g, SizeOf(ver))
    ensures |c| == NumRawDataModules(ver) / 8
  {
    var raw := NumRawDataModules(ver) / 8;
    BytesOf(ReadBits(g, ver)[..8 * raw])
  }

  function ReadDataCodewords(g: Grid, ver: int): seq<bv8>
    requires ValidVersion(ver) && Square(g, SizeOf(ver))
  {
    var l := LayoutOf(ver, ReadLevel(g));
    ReadData(l, ReadCodewords(g, ver), l.numBlocks)
  }

  /** The segments of a symbol, from its grid alone. */
  function ReadSymbol(g: Grid): Option<seq<Payload>> {
    match ReadVersion(g)
    case None => None
    case Some(ver) => ReadSegments(BitString(ReadDataCodewords(g, ver)), ver)
  }

  /** Under the mask, the scan returns every codeword bit. */
  lemma BitsRoundTrip(ver: int, ecl: Ecc, codewords: seq<bv8>, msk: int)
    requires ValidVersion(ver) && ValidMask(msk) && |codewords| == NumRawDataModules(ver) / 8
    ensures var g := SymbolGrid(ver, ecl, BitString(codewords), msk);
            ReadCodewords(g, ver) == codewords
  {
    hide Masked, BaseGrid, Marks, NumCells, NumRawDataModules, DrawnUpTo, Rank, ReadScan, SymbolGrid, ReadMask, ReadLevel;
    var n, bits := SizeOf(ver), BitString(codewords);
    var g, base := SymbolGrid(ver, ecl, bits, msk), BaseGrid(ver, ecl, bits, msk);
    FormatRoundTrip(ver, ecl, bits, msk);
    Unmask(ver, ecl, bits, msk);
    RoomForCodewords(ver);
    BaseDrawsBits(ver, ecl, bits, msk);
    ScanRoundTrip(n, Whitened(ver, base), Marks(ver), bits, base);
    CodewordsRoundTrip(codewords);
  }

  /** `g` with the modules outside the function patterns made white. */
  function Whitened(ver: int, g: Grid): (r: Grid)
    requires ValidVersion(ver) && Square(g, SizeOf(ver))
    ensures Square(r, SizeOf(ver))
    ensures forall x, y :: InGrid(SizeOf(ver), x, y) ==> r[y][x] == (FunctionCell(ver, x, y) && g[y][x])
  {
    var n := SizeOf(ver);
    seq(n, y requires 0 <= y < n => seq(n, x requires 0 <= x < n => FunctionCell(ver, x, y) && g[y][x]))
  }

  /** The unmasked symbol is what the scan draws over the function patterns. */
  lemma BaseDrawsBits(ver: int, ecl: Ecc, bits: Bits, msk: int)
    requires ValidVersion(ver) && ValidMask(msk) && ValidSize(SizeOf(ver))
    ensures var base := BaseGrid(ver, ecl, bits, msk);
            DrawnUpTo(SizeOf(ver), Whitened(ver, base), Marks(ver), bits, NumCells(SizeOf(ver)), base)
  {
    hide FunctionCell, FunctionColour, FormatWord, Rank, IndexOf, NumCells;
    var n, base := SizeOf(ver), BaseGrid(ver, ecl, bits, msk);
    forall x, y | InGrid(n, x, y)
      ensures base[y][x] == DrawnCell(n, Whitened(ver, base), Marks(ver), bits, NumCells(n), x, y)
    {
      ColumnSixIsMarked(ver, y);
      if x != 6 {
        IndexInScan(n, x, y);
      }
    }
  }

  lemma VersionRoundTrip(g: Grid, ver: int)
    requires ValidVersion(ver) && Square(g, SizeOf(ver))
    ensures ReadVersion(g) == Some(ver)
  {
  }

  /** Reading a symbol returns the data codewords it carries. */
  lemma DataRoundTrip(ver: int, ecl: Ecc, data: seq<bv8>, msk: int)
    requires ValidVersion(ver) && ValidMask(msk) && |data| == NumDataCodewords(ver, ecl)
    ensures var g := SymbolGrid(ver, ecl, BitString(CodewordsOf(LayoutOf(ver, ecl), data)), msk);
            ReadVersion(g) == Some(ver) && ReadDataCodewords(g, ver) == data
  {
    hide SymbolGrid, CodewordsOf, ReadCodewords, ReadLevel, NumDataCodewords, NumRawDataModules, EccLength, NumBlocks, ReadData, LayoutOf, BitString, ReadVersion, Carries;
    var codewords := CodewordsOf(LayoutOf(ver, ecl), data);
    VersionRoundTrip(SymbolGrid(ver, ecl, BitString(codewords), msk), ver);
    BitsRoundTrip(ver, ecl, codewords, msk);
    FormatRoundTrip(ver, ecl, BitString(codewords), msk);
    CodewordsCarryData(LayoutOf(ver, ecl), data);
  }
}
