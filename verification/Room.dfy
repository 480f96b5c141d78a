/**
 * Room for the codewords: the number of modules outside the function patterns is exactly
 * getNumRawDataModules, for every version.
 */
module Room {
  import opened Capacity
  import opened Counting
  import opened Grids
  import opened Patterns
  import opened Segments
  import opened Symbols
  import opened ZigZag

  // ----- The scan meets every free cell once -----

  /** The unmarked cells visited before index `k`. */
  function FreeCells(n: nat, marks: Grid, k: nat): set<Cell>
    requires ValidSize(n) && Square(marks, n)
  {
    set x, y | 0 <= x < n && 0 <= y < n && x != 6 && !marks[y][x] && IndexOf(n, x, y) < k :: (x, y)
  }

  lemma {:induction false} RankCounts(n: nat, marks: Grid, k: nat)
    requires ValidSize(n) && Square(marks, n) && k <= NumCells(n)
    ensures Rank(n, marks, k) == |FreeCells(n, marks, k)|
  {
    hide IndexOf, CellAt, NumCells;
    if k == 0 {
      forall x, y | 0 <= x < n && 0 <= y < n && x != 6
        ensures IndexOf(n, x, y) >= 0
      {
        IndexInScan(n, x, y);
      }
      assert FreeCells(n, marks, 0) == {};
    } else {
      RankCounts(n, marks, k - 1);
      FreeStep(n, marks, k - 1);
    }
  }

  lemma FreeStep(n: nat, marks: Grid, k: nat)
    requires ValidSize(n) && Square(marks, n) && k < NumCells(n)
    ensures |FreeCells(n, marks, k + 1)| == |FreeCells(n, marks, k)| + (if Free(n, marks, k) then 1 else 0)
  {
    hide IndexOf, CellAt, NumCells;
    var (cx, cy) := CellAt(n, k);
    ScanHitsIndex(n, k);
    forall x, y | 0 <= x < n && 0 <= y < n && x != 6
      ensures IndexOf(n, x, y) == k <==> (x, y) == (cx, cy)
    {
      IndexInScan(n, x, y);
    }
    var a, b := FreeCells(n, marks, k), FreeCells(n, marks, k + 1);
    if Free(n, marks, k) {
      assert b == a + {(cx, cy)} && (cx, cy) !in a;
    } else {
      assert b == a;
    }
  }

  // ----- The function modules in pieces -----

  function FunctionCells(ver: int): set<Cell>
    requires ValidVersion(ver)
  {
    var n := SizeOf(ver);
    set x, y | 0 <= x < n && 0 <= y < n && FunctionCell(ver, x, y) :: (x, y)
  }

  /** Coordinates near the centres numbered lo up to hi. */
  function NearSet(pos: seq<int>, n: nat, lo: int, hi: int): set<int> {
    set x | 0 <= x < n && lo <= Near(pos, x) < hi
  }

  lemma {:induction false} NearSetCard(pos: seq<int>, n: nat, lo: nat, hi: nat)
    requires Spaced(pos, n) && lo <= hi <= |pos| && n >= 21
    ensures |NearSet(pos, n, lo, hi)| == 5 * (hi - lo)
    decreases hi
  {
    hide Near;
    if lo == hi {
      assert NearSet(pos, n, lo, hi) == {};
    } else {
      NearSetCard(pos, n, lo, hi - 1);
      NearExactly(pos, n, hi - 1);
      NearSetStep(pos, n, lo, hi, pos[hi - 1] - 2);
    }
  }

  lemma NearSetStep(pos: seq<int>, n: nat, lo: int, hi: int, a: int)
    requires lo < hi
    requires forall x {:trigger Near(pos, x)} :: a <= x < a + 5 <==> 0 <= x < n && Near(pos, x) == hi - 1
    ensures |NearSet(pos, n, lo, hi)| == |NearSet(pos, n, lo, hi - 1)| + 5
  {
    hide Near;
    var before, five := NearSet(pos, n, lo, hi - 1), Interval(a, a + 5);
    IntervalCard(a, a + 5);
    assert NearSet(pos, n, lo, hi) == before + five && before !! five;
  }

  lemma NearExactly(pos: seq<int>, n: nat, i: nat)
    requires Spaced(pos, n) && i < |pos| && n >= 21
    ensures forall x {:trigger Near(pos, x)} :: pos[i] - 2 <= x < pos[i] + 3 <==> 0 <= x < n && Near(pos, x) == i
  {
    CentreInGrid(pos, n, i);
    forall x
      ensures pos[i] - 2 <= x < pos[i] + 3 <==> 0 <= x < n && Near(pos, x) == i
    {
      if pos[i] - 2 <= x < pos[i] + 3 {
        NearIs(pos, n, x, i);
      }
    }
  }

  lemma CentreInGrid(pos: seq<int>, n: nat, i: nat)
    requires Spaced(pos, n) && i < |pos|
    ensures 6 <= pos[i] <= n - 7
    ensures i > 0 ==> pos[i] >= 18
    ensures i < |pos| - 1 ==> pos[i] <= n - 19
  {
    assert i > 0 ==> pos[0] + 12 <= pos[i];
    assert i < |pos| - 1 ==> pos[i] + 12 <= pos[|pos| - 1];
  }

  /** Where the coordinates near inner and outer centres lie. */
  predicate Placed(pos: seq<int>, n: nat, x: int) {
    var i := Near(pos, x);
    && (4 <= x <= 8 <==> i == 0)
    && (i > 0 ==> 16 <= x <= n - 5)
    && (0 < i < |pos| - 1 ==> x <= n - 17)
  }

  lemma AllPlaced(pos: seq<int>, n: nat)
    requires Spaced(pos, n)
    ensures forall x {:trigger Near(pos, x)} :: Placed(pos, n, x)
  {
    forall x
      ensures Placed(pos, n, x)
    {
      var i := Near(pos, x);
      if i >= 0 {
        CentreInGrid(pos, n, i);
      }
      if 4 <= x <= 8 {
        NearIs(pos, n, x, 0);
      }
    }
  }

  /** Finders with the format modules beside them, and the timing modules between them. */
  function Frame(n: nat): set<Cell> {
    Rect(0, 9, 0, 9) + Rect(n - 8, n, 0, 9) + Rect(0, 9, n - 8, n) + Rect(9, n - 8, 6, 7) + Rect(6, 7, 9, n - 8)
  }

  lemma FrameCard(n: nat)
    requires n >= 21
    ensures |Frame(n)| == 225 + 2 * (n - 17)
  {
    hide Rect;
    var a, b, c, d, e := Rect(0, 9, 0, 9), Rect(n - 8, n, 0, 9), Rect(0, 9, n - 8, n), Rect(9, n - 8, 6, 7), Rect(6, 7, 9, n - 8);
    RectCard(0, 9, 0, 9);
    RectCard(n - 8, n, 0, 9);
    RectCard(0, 9, n - 8, n);
    RectCard(9, n - 8, 6, 7);
    RectCard(6, 7, 9, n - 8);
    assert a !! b by { RectsDisjoint(0, 9, 0, 9, n - 8, n, 0, 9); }
    assert a !! c by { RectsDisjoint(0, 9, 0, 9, 0, 9, n - 8, n); }
    assert b !! c by { RectsDisjoint(n - 8, n, 0, 9, 0, 9, n - 8, n); }
    assert a !! d by { RectsDisjoint(0, 9, 0, 9, 9, n - 8, 6, 7); }
    assert b !! d by { RectsDisjoint(n - 8, n, 0, 9, 9, n - 8, 6, 7); }
    assert c !! d by { RectsDisjoint(0, 9, n - 8, n, 9, n - 8, 6, 7); }
    assert a !! e by { RectsDisjoint(0, 9, 0, 9, 6, 7, 9, n - 8); }
    assert b !! e by { RectsDisjoint(n - 8, n, 0, 9, 6, 7, 9, n - 8); }
    assert c !! e by { RectsDisjoint(0, 9, n - 8, n, 6, 7, 9, n - 8); }
    assert d !! e by { RectsDisjoint(9, n - 8, 6, 7, 6, 7, 9, n - 8); }
  }

  function VersionPieces(ver: int, n: nat): set<Cell> {
    if ver < 7 then {} else Rect(n - 11, n - 8, 0, 6) + Rect(0, 6, n - 11, n - 8)
  }

  lemma VersionPiecesCard(ver: int, n: nat)
    requires n >= 21
    ensures |VersionPieces(ver, n)| == if ver < 7 then 0 else 36
  {
    RectCard(n - 11, n - 8, 0, 6);
    RectCard(0, 6, n - 11, n - 8);
    assert Rect(n - 11, n - 8, 0, 6) !! Rect(0, 6, n - 11, n - 8);
  }

  /** The alignment patterns away from the timing lines, and the rest of those on them. */
  function AlignPieces(pos: seq<int>, n: nat): set<Cell> {
    var inner := NearSet(pos, n, 1, |pos| - 1);
    Times(NearSet(pos, n, 1, |pos|), NearSet(pos, n, 1, |pos|)) + Times({4, 5, 7, 8}, inner) + Times(inner, {4, 5, 7, 8})
  }

  lemma AlignPiecesApart(pos: seq<int>, n: nat)
    requires Spaced(pos, n)
    ensures NearSet(pos, n, 1, |pos|) !! {4, 5, 7, 8} && NearSet(pos, n, 1, |pos| - 1) !! {4, 5, 7, 8}
  {
    hide Near;
    var outer, inner := NearSet(pos, n, 1, |pos|), NearSet(pos, n, 1, |pos| - 1);
    AllPlaced(pos, n);
    forall x | x in outer
      ensures x >= 16
    {
      assert Placed(pos, n, x);
    }
    assert inner <= outer;
  }

  lemma AlignPiecesCard(pos: seq<int>, n: nat)
    requires Spaced(pos, n) && n >= 21
    ensures |AlignPieces(pos, n)| == 25 * ((|pos| - 1) * (|pos| - 1)) + 40 * (|pos| - 2)
  {
    hide Times, NearSet;
    var outer, inner, side := NearSet(pos, n, 1, |pos|), NearSet(pos, n, 1, |pos| - 1), {4, 5, 7, 8};
    NearSetCard(pos, n, 1, |pos|);
    NearSetCard(pos, n, 1, |pos| - 1);
    TimesCard(outer, outer);
    TimesCard(side, inner);
    TimesCard(inner, side);
    AlignPiecesApart(pos, n);
    TimesDisjoint(outer, outer, side, inner);
    TimesDisjoint(outer, outer, inner, side);
    TimesDisjoint(side, inner, inner, side);
    assert |side| == 4;
    var k := |pos| - 1;
    assert (5 * k) * (5 * k) == 25 * (k * k);
  }

  // ----- Putting the pieces together -----

  lemma VersionPiecesApart(ver: int, n: nat)
    requires n >= 21
    ensures VersionPieces(ver, n) !! Frame(n)
  {
  }

  /** The alignment pieces keep clear of the corners and of the timing lines. */
  lemma AlignPieceBounds(pos: seq<int>, n: nat, c: Cell)
    requires Spaced(pos, n) && c in AlignPieces(pos, n)
    ensures || (c.0 >= 16 && c.1 >= 16)
            || (c.0 in {4, 5, 7, 8} && 16 <= c.1 <= n - 17)
            || (c.1 in {4, 5, 7, 8} && 16 <= c.0 <= n - 17)
  {
    hide Near;
    AllPlaced(pos, n);
    assert Placed(pos, n, c.0) && Placed(pos, n, c.1);
  }

  lemma AlignPiecesOutside(ver: int, pos: seq<int>, n: nat)
    requires Spaced(pos, n) && n >= 21
    ensures AlignPieces(pos, n) !! Frame(n) && AlignPieces(pos, n) !! VersionPieces(ver, n)
  {
    hide AlignPieces;
    forall c | c in AlignPieces(pos, n)
      ensures c !in Frame(n) && c !in VersionPieces(ver, n)
    {
      AlignPieceBounds(pos, n, c);
    }
  }

  /** Away from the alignment patterns. */
  lemma FrameIs(n: nat, x: int, y: int)
    requires n >= 21 && InGrid(n, x, y)
    ensures (x, y) in Frame(n) <==> TimingCell(x, y) || FinderCell(n, x, y) || FormatCell(n, x, y)
  {
  }

  lemma VersionPiecesAre(ver: int, n: nat, x: int, y: int)
    requires n >= 21 && InGrid(n, x, y)
    ensures (x, y) in VersionPieces(ver, n) <==> VersionCell(ver, n, x, y)
  {
  }

  lemma AlignPiecesAre(pos: seq<int>, n: nat, x: int, y: int)
    requires Spaced(pos, n) && n >= 21 && InGrid(n, x, y)
    ensures (x, y) in AlignPieces(pos, n) ==> AlignmentCell(pos, x, y)
    ensures AlignmentCell(pos, x, y) ==> (x, y) in AlignPieces(pos, n) || (x, y) in Frame(n)
  {
    hide Near;
    AllPlaced(pos, n);
    assert Placed(pos, n, x) && Placed(pos, n, y);
  }

  lemma FunctionCellsCard(ver: int)
    requires 2 <= ver <= 40
    ensures var n, a := SizeOf(ver), NumAlign(ver);
            |FunctionCells(ver)| == 225 + 2 * (n - 17) + (if ver < 7 then 0 else 36) + 25 * ((a - 1) * (a - 1)) + 40 * (a - 2)
  {
    hide Frame, VersionPieces, AlignPieces, TimingCell, FinderCell, FormatCell, VersionCell, AlignmentCell, AlignPositions, Spaced;
    var n, pos := SizeOf(ver), AlignPositions(ver);
    AlignSpacing(ver);
    forall x, y | InGrid(n, x, y)
      ensures FunctionCell(ver, x, y) <==> (x, y) in Frame(n) + VersionPieces(ver, n) + AlignPieces(pos, n)
    {
      FrameIs(n, x, y);
      VersionPiecesAre(ver, n, x, y);
      AlignPiecesAre(pos, n, x, y);
    }
    FrameInGrid(n);
    PiecesInGrid(ver, pos, n);
    assert FunctionCells(ver) == Frame(n) + VersionPieces(ver, n) + AlignPieces(pos, n);
    FrameCard(n);
    VersionPiecesCard(ver, n);
    AlignPiecesCard(pos, n);
    VersionPiecesApart(ver, n);
    AlignPiecesOutside(ver, pos, n);
  }

  lemma FrameInGrid(n: nat)
    requires n >= 21
    ensures forall c :: c in Frame(n) ==> InGrid(n, c.0, c.1)
  {
  }

  lemma PiecesInGrid(ver: int, pos: seq<int>, n: nat)
    requires n >= 21
    ensures forall c :: c in VersionPieces(ver, n) || c in AlignPieces(pos, n) ==> InGrid(n, c.0, c.1)
  {
    hide Near;
  }

  lemma FirstVersionHasOnlyTheFrame(x: int, y: int)
    ensures FunctionCell(1, x, y) <==> TimingCell(x, y) || FinderCell(21, x, y) || FormatCell(21, x, y)
  {
  }

  lemma FunctionCellsCardFirst()
    ensures |FunctionCells(1)| == 233
  {
    hide Frame, TimingCell, FinderCell, FormatCell, FunctionCell;
    forall x, y | InGrid(21, x, y)
      ensures FunctionCell(1, x, y) <==> (x, y) in Frame(21)
    {
      FirstVersionHasOnlyTheFrame(x, y);
      FrameIs(21, x, y);
    }
    FrameInGrid(21);
    assert SizeOf(1) == 21;
    assert FunctionCells(1) == Frame(21);
    FrameCard(21);
  }

  /** The scan meets exactly as many free modules as the version has raw data modules. */
  lemma RoomForCodewords(ver: int)
    requires ValidVersion(ver)
    ensures ValidSize(SizeOf(ver))
    ensures Rank(SizeOf(ver), Marks(ver), NumCells(SizeOf(ver))) == NumRawDataModules(ver)
  {
    hide FreeCells, FunctionCells, Marks, NumCells, Rank, NumRawDataModules;
    var n := SizeOf(ver);
    RankCounts(n, Marks(ver), NumCells(n));
    FreeIsUnused(ver);
    RectCard(0, n, 0, n);
    RawModules(ver);
  }

  lemma FreeIsUnused(ver: int)
    requires ValidVersion(ver) && ValidSize(SizeOf(ver))
    ensures var n := SizeOf(ver);
            |Rect(0, n, 0, n)| == |FreeCells(n, Marks(ver), NumCells(n))| + |FunctionCells(ver)|
  {
    hide FunctionCell, IndexOf, NumCells;
    var n := SizeOf(ver);
    var free, used, all := FreeCells(n, Marks(ver), NumCells(n)), FunctionCells(ver), Rect(0, n, 0, n);
    forall x, y | InGrid(n, x, y)
      ensures (x, y) in free <==> (x, y) !in used
    {
      ColumnSixIsMarked(ver, y);
      if x != 6 {
        IndexInScan(n, x, y);
      }
    }
    assert free + used == all && free !! used;
  }

  lemma ColumnSixIsMarked(ver: int, y: int)
    requires ValidVersion(ver)
    ensures FunctionCell(ver, 6, y)
  {
  }

  lemma RawModules(ver: int)
    requires ValidVersion(ver)
    ensures SizeOf(ver) * SizeOf(ver) == NumRawDataModules(ver) + |FunctionCells(ver)|
  {
    hide FunctionCells, NumRawDataModules;
    SquareOfSize(ver);
    if ver == 1 {
      FunctionCellsCardFirst();
    } else {
      FunctionCellsCard(ver);
    }
    RawModulesIs(ver);
  }

  lemma SquareOfSize(ver: int)
    requires ValidVersion(ver)
    ensures SizeOf(ver) * SizeOf(ver) == 16 * (ver * ver) + 136 * ver + 289
  {
    assert (4 * ver + 17) * (4 * ver + 17) == 16 * (ver * ver) + 136 * ver + 289;
  }

  lemma RawModulesIs(ver: int)
    requires ValidVersion(ver)
    ensures NumRawDataModules(ver) ==
            var a := NumAlign(ver);
            16 * (ver * ver) + 128 * ver + 64
            - (if ver < 2 then 0 else 25 * ((a - 1) * (a - 1)) + 40 * (a - 2) + (if ver < 7 then 0 else 36))
  {
    Expansions(ver, NumAlign(ver));
  }

  lemma Expansions(v: int, a: int)
    ensures (16 * v + 128) * v == 16 * (v * v) + 128 * v
    ensures (25 * a - 10) * a == 25 * ((a - 1) * (a - 1)) + 40 * a - 25
  {
    assert (a - 1) * (a - 1) == a * a - 2 * a + 1;
  }
}
