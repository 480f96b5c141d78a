/** The symbol under construction, drawn module by module as the QrCode constructor does. */
module QrCodes {
  import opened Basics
  import opened BitBuffers
  import opened Capacity
  import opened Codewords
  import opened Grids
  import opened Interleave
  import opened Masking
  import opened Patterns
  import opened Penalty
  import opened Results
  import opened Room
  import opened Segments
  import opened Symbols
  import opened ZigZag

  /** No `long` is narrower than this. */
  const LONG_MAX: int := 0x7FFF_FFFF

  class QrCode {
    const version: int
    const size: nat
    const errorCorrectionLevel: Ecc
    var mask: int
    var modules: Grid
    var isFunction: Grid

    ghost predicate Drawing()
      reads this
    {
      ValidVersion(version) && size == SizeOf(version) && Square(modules, size) && Square(isFunction, size)
    }

    constructor Blank(ver: int, ecl: Ecc)
      requires ValidVersion(ver)
      ensures Drawing() && version == ver && errorCorrectionLevel == ecl
      ensures forall x, y :: InGrid(size, x, y) ==> !modules[y][x] && !isFunction[y][x]
    {
      version := ver;
      size := SizeOf(ver);
      errorCorrectionLevel := ecl;
      mask := -1;
      modules := seq(SizeOf(ver), _ => seq(SizeOf(ver), _ => false));
      isFunction := seq(SizeOf(ver), _ => seq(SizeOf(ver), _ => false));
    }

    method SetFunctionModule(x: int, y: int, isBlack: bool)
      requires Drawing() && InGrid(size, x, y)
      modifies this`modules, this`isFunction
      ensures Drawing()
      ensures modules == Put(old(modules), size, x, y, isBlack)
      ensures isFunction == Put(old(isFunction), size, x, y, true)
    {
      modules := modules[y := modules[y][x := isBlack]];
      isFunction := isFunction[y := isFunction[y][x := true]];
    }

    method DrawTimingPatterns()
      requires Drawing()
      modifies this`modules, this`isFunction
      ensures Drawing()
      ensures forall x, y :: InGrid(size, x, y) ==>
                && modules[y][x] == (if TimingCell(x, y) then TimingColour(x, y) else old(modules)[y][x])
                && isFunction[y][x] == (TimingCell(x, y) || old(isFunction)[y][x])
    {
      for i := 0 to size
        invariant Drawing()
        invariant forall x, y :: InGrid(size, x, y) ==>
                    var done := (x == 6 && y < i) || (y == 6 && x < i);
                    && modules[y][x] == (if done then TimingColour(x, y) else old(modules)[y][x])
                    && isFunction[y][x] == (done || old(isFunction)[y][x])
      {
        SetFunctionModule(6, i, i % 2 == 0);
        SetFunctionModule(i, 6, i % 2 == 0);
      }
    }

    method DrawFinderPattern(x0: int, y0: int)
      requires Drawing()
      modifies this`modules, this`isFunction
      ensures Drawing()
      ensures forall x, y :: InGrid(size, x, y) ==>
                && modules[y][x] == (if Distance(x, y, x0, y0) <= 4 then FinderShade(Distance(x, y, x0, y0)) else old(modules)[y][x])
                && isFunction[y][x] == (Distance(x, y, x0, y0) <= 4 || old(isFunction)[y][x])
    {
      for dy := -4 to 5
        invariant Drawing()
        invariant forall x, y :: InGrid(size, x, y) ==>
                    var done := Distance(x, y, x0, y0) <= 4 && y - y0 < dy;
                    && modules[y][x] == (if done then FinderShade(Distance(x, y, x0, y0)) else old(modules)[y][x])
                    && isFunction[y][x] == (done || old(isFunction)[y][x])
      {
        for dx := -4 to 5
          invariant Drawing()
          invariant forall x, y :: InGrid(size, x, y) ==>
                      var done := Distance(x, y, x0, y0) <= 4 && (y - y0 < dy || (y - y0 == dy && x - x0 < dx));
                      && modules[y][x] == (if done then FinderShade(Distance(x, y, x0, y0)) else old(modules)[y][x])
                      && isFunction[y][x] == (done || old(isFunction)[y][x])
        {
          var dist := if Abs(dx) > Abs(dy) then Abs(dx) else Abs(dy);
          var xx, yy := x0 + dx, y0 + dy;
          if 0 <= xx < size && 0 <= yy < size {
            SetFunctionModule(xx, yy, dist != 2 && dist != 4);
          }
        }
      }
    }

    method DrawAlignmentPattern(x0: int, y0: int)
      requires Drawing() && 2 <= x0 < size - 2 && 2 <= y0 < size - 2
      modifies this`modules, this`isFunction
      ensures Drawing()
      ensures forall x, y :: InGrid(size, x, y) ==>
                && modules[y][x] == (if Distance(x, y, x0, y0) <= 2 then Distance(x, y, x0, y0) != 1 else old(modules)[y][x])
                && isFunction[y][x] == (Distance(x, y, x0, y0) <= 2 || old(isFunction)[y][x])
    {
      for dy := -2 to 3
        invariant Drawing()
        invariant forall x, y :: InGrid(size, x, y) ==>
                    var done := Distance(x, y, x0, y0) <= 2 && y - y0 < dy;
                    && modules[y][x] == (if done then Distance(x, y, x0, y0) != 1 else old(modules)[y][x])
                    && isFunction[y][x] == (done || old(isFunction)[y][x])
      {
        for dx := -2 to 3
          invariant Drawing()
          invariant forall x, y :: InGrid(size, x, y) ==>
                      var done := Distance(x, y, x0, y0) <= 2 && (y - y0 < dy || (y - y0 == dy && x - x0 < dx));
                      && modules[y][x] == (if done then Distance(x, y, x0, y0) != 1 else old(modules)[y][x])
                      && isFunction[y][x] == (done || old(isFunction)[y][x])
        {
          SetFunctionModule(x0 + dx, y0 + dy, (if Abs(dx) > Abs(dy) then Abs(dx) else Abs(dy)) != 1);
        }
      }
    }

    method GetAlignmentPatternPositions() returns (result: seq<int>)
      requires Drawing()
      ensures result == AlignPositions(version)
    {
      hide AlignStep;
      if version == 1 {
        return [];
      }
      var numAlign := NumAlign(version);
      var step := AlignStep(version);
      result := [];
      var pos := size - 7;
      for i := 0 to numAlign - 1
        invariant pos == size - 7 - i * step
        invariant result == Ladder(size - 7, step, i)
      {
        LadderStep(size - 7, step, i);
        result := [pos] + result;
        pos := pos - step;
      }
      result := [6] + result;
    }

    method DrawAlignmentPatterns()
      requires Drawing()
      modifies this`modules, this`isFunction
      ensures Drawing()
      ensures forall x, y :: InGrid(size, x, y) ==>
                var pos := AlignPositions(version);
                && modules[y][x] == (if AlignmentCell(pos, x, y) then AlignmentColour(pos, x, y) else old(modules)[y][x])
                && isFunction[y][x] == (AlignmentCell(pos, x, y) || old(isFunction)[y][x])
    {
      hide AlignPositions;
      var pos := GetAlignmentPatternPositions();
      CentresInGrid(version);
      var numAlign := |pos|;
      for i := 0 to numAlign
        invariant Drawing()
        invariant forall x, y :: InGrid(size, x, y) ==>
                    var done := AlignmentCell(pos, x, y) && Near(pos, x) < i;
                    && modules[y][x] == (if done then AlignmentColour(pos, x, y) else old(modules)[y][x])
                    && isFunction[y][x] == (done || old(isFunction)[y][x])
      {
        for j := 0 to numAlign
          invariant Drawing()
          invariant forall x, y :: InGrid(size, x, y) ==>
                      var done := AlignmentCell(pos, x, y) && (Near(pos, x) < i || (Near(pos, x) == i && Near(pos, y) < j));
                      && modules[y][x] == (if done then AlignmentColour(pos, x, y) else old(modules)[y][x])
                      && isFunction[y][x] == (done || old(isFunction)[y][x])
        {
          if !((i == 0 && j == 0) || (i == 0 && j == numAlign - 1) || (i == numAlign - 1 && j == 0)) {
            CellsNear(pos, size, i, j);
            DrawAlignmentPattern(pos[i], pos[j]);
          }
        }
      }
    }

    method SetFormatModule(x: int, y: int, ghost w: bv16, ghost t: int, isBlack: bool, ghost m0: Grid, ghost f0: Grid)
      requires Drawing() && FormatProgress(size, w, t, m0, f0, modules, isFunction)
      requires InGrid(size, x, y) && FormatCell(size, x, y) && FormatTurn(size, x, y) == t
      requires isBlack == FormatColour(size, w, x, y)
      modifies this`modules, this`isFunction
      ensures Drawing() && FormatProgress(size, w, t + 1, m0, f0, modules, isFunction)
    {
      SetFunctionModule(x, y, isBlack);
    }

    method DrawFirstFormatCopy(bits: bv16, ghost m0: Grid, ghost f0: Grid)
      requires Drawing() && FormatProgress(size, bits, 0, m0, f0, modules, isFunction)
      modifies this`modules, this`isFunction
      ensures Drawing() && FormatProgress(size, bits, 15, m0, f0, modules, isFunction)
    {
      hide WordBit, FormatProgress;
      for i := 0 to 6
        invariant Drawing() && FormatProgress(size, bits, i, m0, f0, modules, isFunction)
      {
        SetFormatModule(8, i, bits, i, WordBit(bits, i), m0, f0);
      }
      SetFormatModule(8, 7, bits, 6, WordBit(bits, 6), m0, f0);
      SetFormatModule(8, 8, bits, 7, WordBit(bits, 7), m0, f0);
      SetFormatModule(7, 8, bits, 8, WordBit(bits, 8), m0, f0);
      for i := 9 to 15
        invariant Drawing() && FormatProgress(size, bits, i, m0, f0, modules, isFunction)
      {
        SetFormatModule(14 - i, 8, bits, i, WordBit(bits, i), m0, f0);
      }
    }

    method DrawSecondFormatCopy(bits: bv16, ghost m0: Grid, ghost f0: Grid)
      requires Drawing() && FormatProgress(size, bits, 15, m0, f0, modules, isFunction)
      modifies this`modules, this`isFunction
      ensures Drawing() && FormatProgress(size, bits, 31, m0, f0, modules, isFunction)
    {
      hide WordBit, FormatProgress;
      for i := 0 to 8
        invariant Drawing() && FormatProgress(size, bits, 15 + i, m0, f0, modules, isFunction)
      {
        SetFormatModule(size - 1 - i, 8, bits, 15 + i, WordBit(bits, i), m0, f0);
      }
      for i := 8 to 15
        invariant Drawing() && FormatProgress(size, bits, 15 + i, m0, f0, modules, isFunction)
      {
        SetFormatModule(8, size - 15 + i, bits, 15 + i, WordBit(bits, i), m0, f0);
      }
      SetFormatModule(8, size - 8, bits, 30, true, m0, f0);
    }

    /** Draws both copies of the format bits and the dark module, and nothing else. */
    method DrawFormatBits(msk: int)
      requires Drawing() && ValidMask(msk)
      modifies this`modules, this`isFunction
      ensures Drawing()
      ensures forall x, y :: InGrid(size, x, y) ==>
                && modules[y][x] == (if FormatCell(size, x, y) then FormatColour(size, FormatWord(errorCorrectionLevel, msk), x, y)
                                     else old(modules)[y][x])
                && isFunction[y][x] == (FormatCell(size, x, y) || old(isFunction)[y][x])
    {
      hide FormatWord, WordBit, FormatProgress;
      var bits := FormatBits(errorCorrectionLevel, msk);
      ghost var m0, f0 := modules, isFunction;
      FormatStart(size, bits, m0, f0);
      DrawFirstFormatCopy(bits, m0, f0);
      DrawSecondFormatCopy(bits, m0, f0);
      FormatEnd(size, bits, m0, f0, modules, isFunction);
    }

    /** Draws both copies of the version bits from version 7 on. */
    method DrawVersion()
      requires Drawing()
      modifies this`modules, this`isFunction
      ensures Drawing()
      ensures forall x, y :: InGrid(size, x, y) ==>
                && modules[y][x] == (if VersionCell(version, size, x, y) then VersionColour(size, VersionWord(version as bv32), x, y)
                                     else old(modules)[y][x])
                && isFunction[y][x] == (VersionCell(version, size, x, y) || old(isFunction)[y][x])
    {
      hide VersionWord, LongBit, VersionProgress, VersionColour;
      if version < 7 {
        return;
      }
      var bits := VersionBits(version as bv32);
      ghost var m0, f0 := modules, isFunction;
      VersionStart(version, size, bits, m0, f0);
      for i := 0 to 18
        invariant Drawing() && VersionProgress(version, size, bits, i, m0, f0, modules, isFunction)
      {
        var bit := LongBit(bits, i);
        var a := size - 11 + i % 3;
        var b := i / 3;
        VersionStep(version, size, bits, i, m0, f0, modules, isFunction);
        SetFunctionModule(a, b, bit);
        SetFunctionModule(b, a, bit);
      }
      VersionEnd(version, size, bits, m0, f0, modules, isFunction);
    }

    /** Draws every function pattern, with the format bits of mask 0 for the time being. */
    method DrawFunctionPatterns()
      requires Drawing()
      modifies this`modules, this`isFunction
      ensures Drawing()
      ensures forall x, y :: InGrid(size, x, y) ==>
                && modules[y][x] == (if FunctionCell(version, x, y)
                                     then FunctionColour(version, FormatWord(errorCorrectionLevel, 0), x, y)
                                     else old(modules)[y][x])
                && isFunction[y][x] == (FunctionCell(version, x, y) || old(isFunction)[y][x])
    {
      hide AlignmentCell, AlignmentColour, AlignPositions, FormatWord, VersionWord, FormatColour, VersionColour, Distance, FinderShade;
      DrawTimingPatterns();
      DrawFinderPattern(3, 3);
      DrawFinderPattern(size - 4, 3);
      DrawFinderPattern(3, size - 4);
      DrawAlignmentPatterns();
      DrawFormatBits(0);
      DrawVersion();
    }

    /** One pair of columns of the scan, starting with bit `first` of `data`. */
    method DrawColumnPair(data: seq<bv8>, right: int, first: nat, ghost p: nat, ghost m0: Grid) returns (i: nat)
      requires Drawing() && p <= (size - 3) / 2 && right == RightColumn(size, p)
      requires ScanState(size, m0, isFunction, BitString(data), PairStart(size, p), modules, first)
      modifies this`modules
      ensures Drawing()
      ensures ScanState(size, m0, isFunction, BitString(data), PairStart(size, p + 1), modules, i)
    {
      hide NumCells, ScanState, CellAt, GetBit, Upward, RightColumn, PairStart;
      ghost var bits, base := BitString(data), PairStart(size, p);
      i := first;
      for vert := 0 to size
        invariant Drawing()
        invariant ScanState(size, m0, isFunction, bits, base + 2 * vert, modules, i)
      {
        for j := 0 to 2
          invariant Drawing()
          invariant ScanState(size, m0, isFunction, bits, base + 2 * vert + j, modules, i)
        {
          CellOf(size, p, vert, j);
          ScanStep(size, m0, isFunction, bits, base + 2 * vert + j, modules, i);
          var x := right - j;
          var y := if Upward(right) then size - 1 - vert else vert;
          if !isFunction[y][x] && i < |data| * 8 {
            modules := Put(modules, size, x, y, GetBit(data[i / 8], 7 - i % 8));
            i := i + 1;
          }
        }
      }
      PairStarts(size, p);
    }

    /** Draws the bits of `data` along the zigzag scan, if there are as many as the version holds. */
    method DrawCodewords(data: seq<bv8>) returns (r: Result<()>)
      requires Drawing()
      modifies this`modules
      ensures Drawing()
      ensures |data| != NumRawDataModules(version) / 8 ==> r == Err(InvalidArgument) && modules == old(modules)
      ensures |data| == NumRawDataModules(version) / 8 ==>
                && DrawnUpTo(size, old(modules), isFunction, BitString(data), NumCells(size), modules)
                && r == if 8 * |data| <= Rank(size, isFunction, NumCells(size)) then Ok(()) else Err(LogicError)
    {
      hide NumRawDataModules, NumCells, ScanState, Rank, CellAt, DrawnUpTo, BitString, PairStart;
      if |data| != NumRawDataModules(version) / 8 {
        return Err(InvalidArgument);
      }
      ghost var m0 := modules;
      var i := 0;
      ScanStart(size, m0, isFunction, BitString(data));
      PairStarts(size, 0);
      var right := size - 1;
      ghost var p := 0;
      while right >= 1
        invariant Drawing() && 0 <= p <= (size - 1) / 2
        invariant right == if size - 1 - 2 * p >= 6 then size - 1 - 2 * p else size - 2 - 2 * p
        invariant ScanState(size, m0, isFunction, BitString(data), PairStart(size, p), modules, i)
        decreases right
      {
        if right == 6 {
          right := 5;
        }
        i := DrawColumnPair(data, right, i, p, m0);
        p := p + 1;
        right := right - 2;
      }
      ScanEnd(size, m0, isFunction, BitString(data), p, modules, i);
      if i != |data| * 8 {
        return Err(LogicError);
      }
      return Ok(());
    }

    /** Inverts the unmarked modules that the mask selects. */
    method ApplyMask(msk: int) returns (ok: bool)
      requires Drawing()
      modifies this`modules
      ensures Drawing() && ok == ValidMask(msk)
      ensures modules == if ok then Masked(old(modules), isFunction, size, msk) else old(modules)
    {
      hide Inverts;
      if msk < 0 || msk > 7 {
        return false;
      }
      for y := 0 to size
        invariant Drawing()
        invariant forall x', y' :: InGrid(size, x', y') ==>
                    modules[y'][x'] == (old(modules)[y'][x'] != (y' < y && Inverts(msk, x', y') && !isFunction[y'][x']))
      {
        for x := 0 to size
          invariant Drawing()
          invariant forall x', y' :: InGrid(size, x', y') ==>
                      modules[y'][x'] == (old(modules)[y'][x'] !=
                      ((y' < y || (y' == y && x' < x)) && Inverts(msk, x', y') && !isFunction[y'][x']))
        {
          var invert := Inverts(msk, x, y);
          modules := Put(modules, size, x, y, modules[y][x] != (invert && !isFunction[y][x]));
        }
      }
      SameGrid(modules, Masked(old(modules), isFunction, size, msk), size);
      return true;
    }

    /** Draws everything but the mask: the unmasked symbol with the format bits of mask 0. */
    method DrawUnmasked(dataCodewords: seq<bv8>) returns (r: Result<()>, ghost bits: Bits)
      requires Drawing()
      requires forall x, y :: InGrid(size, x, y) ==> !modules[y][x] && !isFunction[y][x]
      modifies this`modules, this`isFunction
      ensures Drawing()
      ensures r == if |dataCodewords| == NumDataCodewords(version, errorCorrectionLevel) then Ok(()) else Err(InvalidArgument)
      ensures r.Ok? ==> isFunction == Marks(version)
      ensures r.Ok? ==> bits == BitString(CodewordsOf(LayoutOf(version, errorCorrectionLevel), dataCodewords))
      ensures r.Ok? ==> modules == BaseGrid(version, errorCorrectionLevel, bits, 0)
    {
      hide NumDataCodewords, NumRawDataModules, CodewordsOf, LayoutOf, FunctionCell, FunctionColour, FormatWord, NumCells, Rank, DrawnUpTo, BaseGrid, Marks;
      bits := [];
      DrawFunctionPatterns();
      ghost var m0 := modules;
      SameGrid(isFunction, Marks(version), size);
      var allCodewords := AddEccAndInterleave(LayoutOf(version, errorCorrectionLevel), dataCodewords);
      if allCodewords.Err? {
        return Err(allCodewords.error), bits;
      }
      bits := BitString(allCodewords.value);
      r := DrawCodewords(allCodewords.value);
      RoomForCodewords(version);
      BaseIsDrawn(version, errorCorrectionLevel, m0, bits, modules);
    }

    /** The mask search: leaves the unmasked symbol, and finds the best mask. */
    method ChooseMask(ghost bits: Bits) returns (msk: int)
      requires Drawing() && isFunction == Marks(version)
      requires modules == BaseGrid(version, errorCorrectionLevel, bits, 0)
      modifies this`modules, this`isFunction
      ensures Drawing() && isFunction == Marks(version)
      ensures modules == BaseGrid(version, errorCorrectionLevel, bits, 7)
      ensures BestMask(version, errorCorrectionLevel, bits, msk)
    {
      hide BaseGrid, SymbolGrid, Marks, Masked, Score, FormatCell, FormatColour, FormatWord;
      msk := -1;
      var minPenalty := LONG_MAX;
      ghost var f := 0;
      for i := 0 to 8
        invariant Drawing() && isFunction == Marks(version) && ValidMask(f) && (i > 0 ==> f == i - 1)
        invariant modules == BaseGrid(version, errorCorrectionLevel, bits, f)
        invariant i == 0 ==> msk == -1 && minPenalty == LONG_MAX
        invariant i > 0 ==> 0 <= msk < i && minPenalty == Score(SymbolGrid(version, errorCorrectionLevel, bits, msk), size)
        invariant forall m :: 0 <= m < i ==>
                    var p := Score(SymbolGrid(version, errorCorrectionLevel, bits, m), size);
                    minPenalty <= p && (m < msk ==> minPenalty < p)
      {
        var ok := ApplyMask(i);
        FinishSymbol(i, bits, f);
        var penalty := ScoreGrid(modules, size);
        ScoreBound(modules, size);
        if penalty < minPenalty {
          msk := i;
          minPenalty := penalty;
        }
        ok := ApplyMask(i);
        Unmask(version, errorCorrectionLevel, bits, i);
        f := i;
      }
    }

    /** Overwrites the format bits of a masked symbol, which finishes it. */
    method FinishSymbol(msk: int, ghost bits: Bits, ghost f: int)
      requires Drawing() && isFunction == Marks(version) && ValidMask(msk) && ValidMask(f)
      requires modules == Masked(BaseGrid(version, errorCorrectionLevel, bits, f), Marks(version), size, msk)
      modifies this`modules, this`isFunction
      ensures Drawing() && isFunction == Marks(version)
      ensures modules == SymbolGrid(version, errorCorrectionLevel, bits, msk)
    {
      hide BaseGrid, SymbolGrid, Masked, FormatColour, FormatWord;
      DrawFormatBits(msk);
      SameGrid(isFunction, Marks(version), size);
      RedrawnFormat(version, errorCorrectionLevel, bits, f, msk, modules);
    }

    /**
     * The QrCode constructor. It fails only on arguments out of range; otherwise the symbol is
     * the one described cell by cell, under the given mask or, for -1, under the best one.
     */
    static method Create(ver: int, ecl: Ecc, dataCodewords: seq<bv8>, msk: int) returns (r: Result<QrCode>)
      ensures !ValidVersion(ver) || !(-1 <= msk <= 7) ==> r == Err(DomainError)
      ensures ValidVersion(ver) && -1 <= msk <= 7 && |dataCodewords| != NumDataCodewords(ver, ecl) ==> r == Err(InvalidArgument)
      ensures ValidVersion(ver) && -1 <= msk <= 7 && |dataCodewords| == NumDataCodewords(ver, ecl) ==>
                && r.Ok? && fresh(r.value)
                && r.value.version == ver && r.value.size == SizeOf(ver) && r.value.errorCorrectionLevel == ecl
                && ValidMask(r.value.mask) && r.value.isFunction == []
                && var bits := BitString(CodewordsOf(LayoutOf(ver, ecl), dataCodewords));
                   && r.value.modules == SymbolGrid(ver, ecl, bits, r.value.mask)
                   && (if msk == -1 then BestMask(ver, ecl, bits, r.value.mask) else r.value.mask == msk)
    {
      hide NumDataCodewords, CodewordsOf, BestMask, SymbolGrid, BaseGrid, Masked, Marks;
      if ver < 1 || ver > 40 {
        return Err(DomainError);
      }
      if msk < -1 || msk > 7 {
        return Err(DomainError);
      }
      var q := new QrCode.Blank(ver, ecl);
      var drawn, bits := q.DrawUnmasked(dataCodewords);
      if drawn.Err? {
        return Err(drawn.error);
      }
      var chosen := msk;
      ghost var f := 0;
      if msk == -1 {
        chosen := q.ChooseMask(bits);
        f := 7;
      }
      assert ValidMask(chosen) by { BestIsValid(ver, ecl, bits, chosen); }
      q.mask := chosen;
      var ok := q.ApplyMask(chosen);
      q.FinishSymbol(chosen, bits, f);
      q.isFunction := [];
      return Ok(q);
    }
  }

  lemma BestIsValid(ver: int, ecl: Ecc, bits: Bits, msk: int)
    requires ValidVersion(ver)
    ensures BestMask(ver, ecl, bits, msk) ==> ValidMask(msk)
  {
  }

  /** Function patterns on white, with the codeword bits drawn over them, are the unmasked symbol. */
  lemma BaseIsDrawn(ver: int, ecl: Ecc, m0: Grid, bits: Bits, result: Grid)
    requires ValidVersion(ver) && Square(m0, SizeOf(ver)) && ValidSize(SizeOf(ver))
    requires forall x, y :: InGrid(SizeOf(ver), x, y) ==>
               m0[y][x] == (FunctionCell(ver, x, y) && FunctionColour(ver, FormatWord(ecl, 0), x, y))
    requires DrawnUpTo(SizeOf(ver), m0, Marks(ver), bits, NumCells(SizeOf(ver)), result)
    ensures result == BaseGrid(ver, ecl, bits, 0)
  {
    hide FunctionCell, FunctionColour, FormatWord, Rank, IndexOf, NumCells;
    var n := SizeOf(ver);
    forall x, y | InGrid(n, x, y)
      ensures result[y][x] == BaseGrid(ver, ecl, bits, 0)[y][x]
    {
      assert result[y][x] == DrawnCell(n, m0, Marks(ver), bits, NumCells(n), x, y);
      ColumnSixIsMarked(ver, y);
      if x != 6 {
        IndexInScan(n, x, y);
      }
    }
    SameGrid(result, BaseGrid(ver, ecl, bits, 0), n);
  }

  lemma ScanEnd(n: nat, g: Grid, marks: Grid, bits: Bits, p: int, result: Grid, i: int)
    requires p == (n - 1) / 2 && p >= 0 && ScanState(n, g, marks, bits, PairStart(n, p), result, i)
    ensures DrawnUpTo(n, g, marks, bits, NumCells(n), result)
    ensures i == |bits| <==> |bits| <= Rank(n, marks, NumCells(n))
  {
    hide Rank, DrawnUpTo, PairStart;
    PairStarts(n, p);
  }

  /** The format bits with their error correction; the range assertion of the source never fires. */
  method FormatBits(ecl: Ecc, msk: int) returns (bits: bv16)
    requires ValidMask(msk)
    ensures bits == FormatWord(ecl, msk)
  {
    hide FormatRemStep, FormatJoin;
    var data := FormatData(ecl, msk);
    var rem := data;
    for i := 0 to 10
      invariant rem == FormatRem(data, i)
    {
      rem := FormatRemStep(rem);
    }
    FormatWordFits(data, rem);
    bits := FormatJoin(data, rem);
    assert bits >> 15 == 0;
  }

  method VersionBits(version: bv32) returns (bits: bv32)
    requires version < 64
    ensures bits == VersionWord(version)
  {
    hide VersionRemStep;
    var rem := version;
    for i := 0 to 12
      invariant rem == VersionRem(version, i)
    {
      rem := VersionRemStep(rem);
    }
    VersionWordFits(version, rem);
    bits := VersionJoin(version, rem);
    assert bits >> 18 == 0;
  }

  /** The format modules drawn before turn `t`, over grids `m0` and `f0`. */
  ghost predicate FormatProgress(n: nat, w: bv16, t: int, m0: Grid, f0: Grid, m: Grid, f: Grid) {
    && n >= 21 && Square(m0, n) && Square(f0, n) && Square(m, n) && Square(f, n)
    && forall x, y :: InGrid(n, x, y) ==>
         var done := FormatCell(n, x, y) && FormatTurn(n, x, y) < t;
         && m[y][x] == (if done then FormatColour(n, w, x, y) else m0[y][x])
         && f[y][x] == (done || f0[y][x])
  }

  lemma FormatStart(n: nat, w: bv16, m: Grid, f: Grid)
    requires n >= 21 && Square(m, n) && Square(f, n)
    ensures FormatProgress(n, w, 0, m, f, m, f)
  {
  }

  lemma FormatEnd(n: nat, w: bv16, m0: Grid, f0: Grid, m: Grid, f: Grid)
    requires FormatProgress(n, w, 31, m0, f0, m, f)
    ensures forall x, y :: InGrid(n, x, y) ==>
              && m[y][x] == (if FormatCell(n, x, y) then FormatColour(n, w, x, y) else m0[y][x])
              && f[y][x] == (FormatCell(n, x, y) || f0[y][x])
  {
  }

  /** The version modules drawn before step `i`, over grids `m0` and `f0`. */
  ghost predicate VersionProgress(ver: int, n: nat, w: bv32, i: int, m0: Grid, f0: Grid, m: Grid, f: Grid) {
    && n >= 21 && Square(m0, n) && Square(f0, n) && Square(m, n) && Square(f, n)
    && forall x, y :: InGrid(n, x, y) ==>
         var done := VersionCell(ver, n, x, y) && VersionIndex(n, x, y) < i;
         && m[y][x] == (if done then VersionColour(n, w, x, y) else m0[y][x])
         && f[y][x] == (done || f0[y][x])
  }

  lemma VersionStart(ver: int, n: nat, w: bv32, m: Grid, f: Grid)
    requires n >= 21 && Square(m, n) && Square(f, n)
    ensures VersionProgress(ver, n, w, 0, m, f, m, f)
  {
  }

  lemma VersionStep(ver: int, n: nat, w: bv32, i: nat, m0: Grid, f0: Grid, m: Grid, f: Grid)
    requires VersionProgress(ver, n, w, i, m0, f0, m, f) && i < 18 && ver >= 7
    ensures var a, b := n - 11 + i % 3, i / 3;
            VersionProgress(ver, n, w, i + 1, m0, f0,
                            Put(Put(m, n, a, b, LongBit(w, i)), n, b, a, LongBit(w, i)),
                            Put(Put(f, n, a, b, true), n, b, a, true))
  {
    hide LongBit;
  }

  lemma VersionEnd(ver: int, n: nat, w: bv32, m0: Grid, f0: Grid, m: Grid, f: Grid)
    requires VersionProgress(ver, n, w, 18, m0, f0, m, f)
    ensures forall x, y :: InGrid(n, x, y) ==>
              && m[y][x] == (if VersionCell(ver, n, x, y) then VersionColour(n, w, x, y) else m0[y][x])
              && f[y][x] == (VersionCell(ver, n, x, y) || f0[y][x])
  {
  }

  lemma FormatWordFits(data: bv16, rem: bv16)
    requires data < 32 && rem < 1024
    ensures FormatJoin(data, rem) >> 15 == 0
  {
  }

  lemma VersionWordFits(data: bv32, rem: bv32)
    requires data < 64 && rem < 4096
    ensures VersionJoin(data, rem) >> 18 == 0
  {
  }

  lemma LadderStep(top: int, step: int, i: nat)
    ensures Ladder(top, step, i + 1) == [top - i * step] + Ladder(top, step, i)
    ensures (i + 1) * step == i * step + step
  {
    var a, b := Ladder(top, step, i + 1), [top - i * step] + Ladder(top, step, i);
    forall k | 0 <= k < i + 1
      ensures a[k] == b[k]
    {
      if k > 0 {
        assert i - k == i - 1 - (k - 1);
      }
    }
  }

  lemma CentresInGrid(ver: int)
    requires ValidVersion(ver)
    ensures var pos := AlignPositions(ver);
            && (pos == [] || Spaced(pos, SizeOf(ver)))
            && forall i :: 0 <= i < |pos| ==> 6 <= pos[i] <= SizeOf(ver) - 7
  {
    hide AlignStep;
    if ver >= 2 {
      AlignSpacing(ver);
      var pos := AlignPositions(ver);
      forall i | 0 <= i < |pos|
        ensures 6 <= pos[i] <= SizeOf(ver) - 7
      {
        assert i > 0 ==> pos[0] + 12 <= pos[i];
        assert i < |pos| - 1 ==> pos[i] + 12 <= pos[|pos| - 1];
      }
    }
  }

  /** The cells within two of a centre are those that have it as their nearest. */
  lemma CellsNear(pos: seq<int>, n: nat, i: nat, j: nat)
    requires Spaced(pos, n) && i < |pos| && j < |pos|
    ensures forall x, y {:trigger Distance(x, y, pos[i], pos[j])} ::
              Distance(x, y, pos[i], pos[j]) <= 2 <==> Near(pos, x) == i && Near(pos, y) == j
  {
    forall x, y
      ensures Distance(x, y, pos[i], pos[j]) <= 2 <==> Near(pos, x) == i && Near(pos, y) == j
    {
      if Distance(x, y, pos[i], pos[j]) <= 2 {
        NearIs(pos, n, x, i);
        NearIs(pos, n, y, j);
      }
    }
  }
}
