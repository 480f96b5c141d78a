/**
 * The zigzag scan of drawCodewords: pairs of columns from right to left, skipping column 6,
 * alternately upward and downward.
 */
module ZigZag {
  import opened Basics
  import opened BitBuffers
  import opened Grids

  /** Sizes of the form 4v + 17 are of this kind. */
  predicate ValidSize(n: nat) {
    n >= 9 && n % 2 == 1
  }

  function NumCells(n: nat): nat
    requires ValidSize(n)
  {
    (n - 1) * n
  }

  /** The right column of the `p`-th pair. */
  function RightColumn(n: nat, p: nat): int {
    if n - 1 - 2 * p > 6 then n - 1 - 2 * p else n - 2 - 2 * p
  }

  predicate Upward(right: nat) {
    (right + 1) / 2 % 2 == 0
  }

  /** The row reached after `vert` steps along a pair of columns. */
  function RowOf(n: nat, right: nat, vert: int): int {
    if Upward(right) then n - 1 - vert else vert
  }

  /** The column and row of the `k`-th visited cell. */
  function CellAt(n: nat, k: nat): (c: (int, int))
    requires ValidSize(n) && k < NumCells(n)
    ensures 0 <= c.0 < n && 0 <= c.1 < n && c.0 != 6
  {
    PairInRange(n, k);
    var right := RightColumn(n, PairIndex(n, k));
    var r := Within(n, k);
    (right - r % 2, RowOf(n, right, r / 2))
  }

  /** Which pair of columns the `k`-th visited cell is in. */
  function PairIndex(n: nat, k: nat): int
    requires ValidSize(n)
  {
    k / (2 * n)
  }

  /** How many cells of its pair of columns come before the `k`-th visited cell. */
  function Within(n: nat, k: nat): int
    requires ValidSize(n)
  {
    k % (2 * n)
  }

  lemma PairInRange(n: nat, k: nat)
    requires ValidSize(n) && k < NumCells(n)
    ensures 0 <= PairIndex(n, k) <= (n - 3) / 2
    ensures k == PairIndex(n, k) * (2 * n) + Within(n, k) && 0 <= Within(n, k) < 2 * n
  {
    var p, h := PairIndex(n, k), (n - 1) / 2;
    PairedColumns(n);
    QuotientOf(k, 2 * n);
    CancelFactor(p, h, 2 * n);
  }

  lemma QuotientOf(k: nat, d: nat)
    requires d > 0
    ensures k / d >= 0 && k == (k / d) * d + k % d && 0 <= k % d < d
  {
  }

  lemma PairedColumns(n: nat)
    requires ValidSize(n)
    ensures NumCells(n) == ((n - 1) / 2) * (2 * n)
  {
    var h := (n - 1) / 2;
    assert n - 1 == 2 * h;
    assert (2 * h) * n == h * (2 * n);
  }

  /** The pair of columns that holds column `x`. */
  function PairOf(n: nat, x: int): int {
    if x > 6 then (n - 1 - x) / 2 else (n - 2 - x) / 2
  }

  /** When a cell outside column 6 is visited. */
  function IndexOf(n: nat, x: int, y: int): int
    requires ValidSize(n) && 0 <= x < n && 0 <= y < n && x != 6
  {
    var p := PairOf(n, x);
    var right := RightColumn(n, p);
    p * (2 * n) + 2 * RowOf(n, right, y) + (right - x)
  }

  lemma SplitIndex(n: nat, p: nat, r: nat)
    requires ValidSize(n) && r < 2 * n
    ensures PairIndex(n, p * (2 * n) + r) == p && Within(n, p * (2 * n) + r) == r
  {
    var d := 2 * n;
    var k := p * d + r;
    assert k == d * (k / d) + k % d;
    assert (p - k / d) * d == k % d - r;
    CancelFactor(k / d, p + 1, d);
    CancelFactor(p, k / d + 1, d);
  }

  lemma PairFacts(n: nat, x: int)
    requires ValidSize(n) && 0 <= x < n && x != 6
    ensures 0 <= PairOf(n, x) <= (n - 3) / 2
    ensures 0 <= RightColumn(n, PairOf(n, x)) - x < 2
  {
  }

  lemma ColumnFacts(n: nat, p: nat, j: nat)
    requires ValidSize(n) && p <= (n - 3) / 2 && j < 2
    ensures 0 <= RightColumn(n, p) - j < n && RightColumn(n, p) - j != 6
    ensures PairOf(n, RightColumn(n, p) - j) == p
  {
  }

  lemma PairProduct(n: nat, p: nat)
    requires ValidSize(n) && p <= (n - 3) / 2
    ensures p * (2 * n) + 2 * n <= NumCells(n)
  {
    PairedColumns(n);
    var h := (n - 1) / 2;
    assert p * (2 * n) + 2 * n == (p + 1) * (2 * n);
    assert (h - (p + 1)) * (2 * n) >= 0;
    assert (h - (p + 1)) * (2 * n) == h * (2 * n) - (p + 1) * (2 * n);
  }

  /** Every cell outside column 6 has an index, and the scan visits the cell at that index. */
  lemma IndexInScan(n: nat, x: int, y: int)
    requires ValidSize(n) && 0 <= x < n && 0 <= y < n && x != 6
    ensures 0 <= IndexOf(n, x, y) < NumCells(n)
    ensures CellAt(n, IndexOf(n, x, y)) == (x, y)
  {
    hide Upward, PairOf, RightColumn, NumCells, PairIndex, Within;
    PairFacts(n, x);
    var p := PairOf(n, x);
    var right := RightColumn(n, p);
    PairProduct(n, p);
    var vert, j := RowOf(n, right, y), right - x;
    assert p * (2 * n) >= 0;
    SplitIndex(n, p, 2 * vert + j);
  }

  /** The cell visited at index `k` has index `k`: the scan visits no cell twice. */
  lemma ScanHitsIndex(n: nat, k: nat)
    requires ValidSize(n) && k < NumCells(n)
    ensures var (x, y) := CellAt(n, k); IndexOf(n, x, y) == k
  {
    hide Upward, PairOf, RightColumn, NumCells, PairIndex, Within;
    PairInRange(n, k);
    ColumnFacts(n, PairIndex(n, k), Within(n, k) % 2);
  }

  /** The index of the first cell of the `p`-th pair of columns. */
  function PairStart(n: nat, p: nat): int {
    p * (2 * n)
  }

  lemma PairStarts(n: nat, p: nat)
    ensures PairStart(n, 0) == 0 && PairStart(n, p + 1) == PairStart(n, p) + 2 * n
    ensures ValidSize(n) ==> PairStart(n, (n - 1) / 2) == NumCells(n)
  {
    assert (p + 1) * (2 * n) == p * (2 * n) + 2 * n;
    if ValidSize(n) {
      PairedColumns(n);
    }
  }

  /** The cell reached in the `p`-th pair of columns after `vert` rows, on side `j`. */
  lemma CellOf(n: nat, p: nat, vert: nat, j: nat)
    requires ValidSize(n) && p <= (n - 3) / 2 && vert < n && j < 2
    ensures 0 <= PairStart(n, p) + 2 * vert + j < NumCells(n) && RightColumn(n, p) >= 1
    ensures CellAt(n, PairStart(n, p) + 2 * vert + j) == (RightColumn(n, p) - j, RowOf(n, RightColumn(n, p), vert))
  {
    hide Upward, PairIndex, Within, NumCells;
    PairProduct(n, p);
    assert p * (2 * n) >= 0;
    SplitIndex(n, p, 2 * vert + j);
  }

  // ----- The path of the scan, step by step -----

  /** The pairs go up and down in turn, the first one up, on sizes of the form 4v + 17. */
  lemma Direction(n: nat, p: nat)
    requires ValidSize(n) && n % 4 == 1 && p <= (n - 3) / 2
    ensures RightColumn(n, p) >= 1
    ensures Upward(RightColumn(n, p)) <==> p % 2 == 0
  {
  }

  /** The cells of row `v` of pair `p`, counted along the scan. */
  lemma RowOfPair(n: nat, p: nat, v: nat, m: nat)
    requires ValidSize(n) && n % 4 == 1 && p <= (n - 3) / 2 && v < n && m == p * n + v
    ensures && 2 * m + 1 < NumCells(n)
            && CellAt(n, 2 * m) == (RightColumn(n, p), if p % 2 == 0 then n - 1 - v else v)
            && CellAt(n, 2 * m + 1) == (RightColumn(n, p) - 1, if p % 2 == 0 then n - 1 - v else v)
  {
    hide Upward, NumCells, CellAt, RightColumn;
    assert 2 * (p * n + v) == p * (2 * n) + 2 * v;
    CellOf(n, p, v, 0);
    CellOf(n, p, v, 1);
    Direction(n, p);
  }

  lemma SplitStep(n: nat, m: nat)
    requires ValidSize(n) && 2 * m + 1 < NumCells(n)
    ensures m / n <= (n - 3) / 2 && m % n < n && m == (m / n) * n + m % n
  {
    PairedColumns(n);
    var h := (n - 1) / 2;
    assert m == (m / n) * n + m % n;
    assert h * (2 * n) == 2 * (h * n);
    assert 2 * m + 1 < 2 * (h * n);
    CancelFactor(m / n, h, n);
  }

  /** The scan starts in the bottom right corner. */
  lemma ScanStarts(n: nat)
    requires ValidSize(n) && n % 4 == 1
    ensures 0 < NumCells(n) && CellAt(n, 0) == (n - 1, n - 1)
  {
    hide CellAt, NumCells;
    RowOfPair(n, 0, 0, 0);
  }

  /** Every second step goes to the left neighbour. */
  lemma ScanCrosses(n: nat, m: nat)
    requires ValidSize(n) && n % 4 == 1 && 2 * m + 1 < NumCells(n)
    ensures CellAt(n, 2 * m + 1) == (CellAt(n, 2 * m).0 - 1, CellAt(n, 2 * m).1)
  {
    hide CellAt, NumCells;
    SplitStep(n, m);
    RowOfPair(n, m / n, m % n, m);
  }

  lemma RowEnds(n: nat, p: nat)
    requires ValidSize(n) && n % 4 == 1 && p < (n - 3) / 2
    ensures RightColumn(n, p + 1) == if RightColumn(n, p) - 1 == 7 then 5 else RightColumn(n, p) - 2
  {
  }

  /**
   * The step after the two cells 2m and 2m + 1: back right into the next row, up or down; or, where
   * the pair of columns ends, to the next pair in the same row, over column 6 where that comes next.
   */
  predicate Turns(n: nat, m: nat, ends: bool, up: bool)
    requires ValidSize(n) && 2 * m + 3 < NumCells(n)
  {
    var (x, y), (x', y') := CellAt(n, 2 * m + 1), CellAt(n, 2 * m + 2);
    if ends then y' == y && x' == (if x == 7 then 5 else x - 1)
    else x' == x + 1 && y' == (if up then y - 1 else y + 1)
  }

  lemma TurnWithin(n: nat, p: nat, v: nat, m: nat)
    requires ValidSize(n) && n % 4 == 1 && p <= (n - 3) / 2 && v < n - 1 && m == p * n + v
    ensures 2 * m + 3 < NumCells(n) && Turns(n, m, false, p % 2 == 0)
  {
    hide CellAt, NumCells, Upward, RightColumn;
    RowOfPair(n, p, v, m);
    RowOfPair(n, p, v + 1, m + 1);
  }

  lemma TurnAtEnd(n: nat, p: nat, m: nat)
    requires ValidSize(n) && n % 4 == 1 && p < (n - 3) / 2 && m == p * n + n - 1
    ensures 2 * m + 3 < NumCells(n) && Turns(n, m, true, p % 2 == 0)
  {
    hide CellAt, NumCells, Upward, RightColumn;
    assert (p + 1) * n == m + 1;
    RowOfPair(n, p, n - 1, m);
    RowOfPair(n, p + 1, 0, m + 1);
    RowEnds(n, p);
  }

  /** Which pair of columns the cells 2m and 2m + 1 are in. */
  function Lap(n: nat, m: nat): nat
    requires n > 0
  {
    m / n
  }

  /** They are the last cells of their pair of columns. */
  predicate EndsLap(n: nat, m: nat)
    requires n > 0
  {
    (m + 1) % n == 0
  }

  lemma LapSplit(n: nat, m: nat) returns (v: nat)
    requires ValidSize(n) && 2 * m + 3 < NumCells(n)
    ensures v < n && m == Lap(n, m) * n + v && Lap(n, m) <= (n - 3) / 2
    ensures EndsLap(n, m) <==> v == n - 1
    ensures v == n - 1 ==> Lap(n, m) < (n - 3) / 2
  {
    hide NumCells;
    v := m % n;
    SplitStep(n, m);
    SplitStep(n, m + 1);
    NextRow(n, m);
  }

  /** The scan goes up for the first n rows of steps, down for the next n, and so on. */
  lemma ScanTurns(n: nat, m: nat)
    requires ValidSize(n) && n % 4 == 1 && 2 * m + 3 < NumCells(n)
    ensures Turns(n, m, EndsLap(n, m), Lap(n, m) % 2 == 0)
  {
    hide NumCells, Turns, Lap, EndsLap;
    var v := LapSplit(n, m);
    if v == n - 1 {
      TurnAtEnd(n, Lap(n, m), m);
    } else {
      TurnWithin(n, Lap(n, m), v, m);
    }
  }

  lemma NextRow(n: nat, m: nat)
    requires n > 1
    ensures if m % n == n - 1 then (m + 1) / n == m / n + 1 && (m + 1) % n == 0
            else (m + 1) / n == m / n && (m + 1) % n == m % n + 1
  {
    var p, v := m / n, m % n;
    assert m + 1 == p * n + v + 1;
    if v == n - 1 {
      assert m + 1 == (p + 1) * n;
      QuotientAndRest(p + 1, 0, n);
    } else {
      QuotientAndRest(p, v + 1, n);
    }
  }

  lemma QuotientAndRest(p: nat, v: nat, n: nat)
    requires v < n
    ensures (p * n + v) / n == p && (p * n + v) % n == v
  {
    var k := p * n + v;
    assert k == n * (k / n) + k % n;
    assert (p - k / n) * n == k % n - v;
    CancelFactor(k / n, p + 1, n);
    CancelFactor(p, k / n + 1, n);
  }

  // ----- What the scan draws -----

  predicate Free(n: nat, marks: Grid, k: nat)
    requires ValidSize(n) && Square(marks, n) && k < NumCells(n)
  {
    var (x, y) := CellAt(n, k);
    !marks[y][x]
  }

  /** How many unmarked cells the scan meets before index `k`. */
  function Rank(n: nat, marks: Grid, k: nat): (r: nat)
    requires ValidSize(n) && Square(marks, n) && k <= NumCells(n)
    ensures r <= k
  {
    if k == 0 then 0 else Rank(n, marks, k - 1) + (if Free(n, marks, k - 1) then 1 else 0)
  }

  /** The module at (x, y) once the first `k` cells of the scan have been drawn over `g`. */
  function DrawnCell(n: nat, g: Grid, marks: Grid, bits: Bits, k: nat, x: int, y: int): bool
    requires ValidSize(n) && Square(g, n) && Square(marks, n) && k <= NumCells(n) && 0 <= x < n && 0 <= y < n
  {
    if x == 6 || marks[y][x] then g[y][x]
    else
      IndexInScan(n, x, y);
      var i := IndexOf(n, x, y);
      if i < k && Rank(n, marks, i) < |bits| then bits[Rank(n, marks, i)] else g[y][x]
  }

  ghost predicate DrawnUpTo(n: nat, g: Grid, marks: Grid, bits: Bits, k: nat, result: Grid)
    requires ValidSize(n) && Square(g, n) && Square(marks, n) && k <= NumCells(n)
  {
    && Square(result, n)
    && forall x, y :: 0 <= x < n && 0 <= y < n ==> result[y][x] == DrawnCell(n, g, marks, bits, k, x, y)
  }

  lemma NothingDrawn(n: nat, g: Grid, marks: Grid, bits: Bits)
    requires ValidSize(n) && Square(g, n) && Square(marks, n)
    ensures DrawnUpTo(n, g, marks, bits, 0, g)
  {
    hide IndexOf, Rank, NumCells;
    forall x, y | 0 <= x < n && 0 <= y < n
      ensures g[y][x] == DrawnCell(n, g, marks, bits, 0, x, y)
    {
      if x != 6 {
        IndexInScan(n, x, y);
      }
    }
  }

  /** The scan state: the grid so far, and the number of the next bit. */
  ghost predicate ScanState(n: nat, g: Grid, marks: Grid, bits: Bits, k: int, result: Grid, i: int) {
    && ValidSize(n) && Square(g, n) && Square(marks, n) && 0 <= k <= NumCells(n)
    && DrawnUpTo(n, g, marks, bits, k, result)
    && i == if Rank(n, marks, k) < |bits| then Rank(n, marks, k) else |bits|
  }

  lemma ScanStart(n: nat, g: Grid, marks: Grid, bits: Bits)
    requires ValidSize(n) && Square(g, n) && Square(marks, n)
    ensures ScanState(n, g, marks, bits, 0, g, 0)
  {
    NothingDrawn(n, g, marks, bits);
  }

  lemma ScanStep(n: nat, g: Grid, marks: Grid, bits: Bits, k: int, before: Grid, i: int)
    requires ScanState(n, g, marks, bits, k, before, i) && k < NumCells(n)
    ensures var (x, y) := CellAt(n, k);
            if !marks[y][x] && i < |bits| then ScanState(n, g, marks, bits, k + 1, Put(before, n, x, y, bits[i]), i + 1)
            else ScanState(n, g, marks, bits, k + 1, before, i)
  {
    hide DrawnUpTo, CellAt, NumCells;
    var (x, y) := CellAt(n, k);
    DrawnIsSquare(n, g, marks, bits, k, before);
    var after := if !marks[y][x] && i < |bits| then Put(before, n, x, y, bits[i]) else before;
    DrawStep(n, g, marks, bits, k, before, after);
  }

  lemma DrawnIsSquare(n: nat, g: Grid, marks: Grid, bits: Bits, k: nat, result: Grid)
    requires ValidSize(n) && Square(g, n) && Square(marks, n) && k <= NumCells(n)
    requires DrawnUpTo(n, g, marks, bits, k, result)
    ensures Square(result, n)
  {
  }

  /** Drawing the `k`-th cell extends the drawn part by that cell and no other. */
  lemma DrawStep(n: nat, g: Grid, marks: Grid, bits: Bits, k: nat, before: Grid, after: Grid)
    requires ValidSize(n) && Square(g, n) && Square(marks, n) && k < NumCells(n)
    requires DrawnUpTo(n, g, marks, bits, k, before)
    requires var (x, y) := CellAt(n, k);
             after == if Free(n, marks, k) && Rank(n, marks, k) < |bits|
                      then Put(before, n, x, y, bits[Rank(n, marks, k)]) else before
    ensures DrawnUpTo(n, g, marks, bits, k + 1, after)
  {
    hide IndexOf, Rank, NumCells, CellAt;
    var (cx, cy) := CellAt(n, k);
    ScanHitsIndex(n, k);
    forall x, y | 0 <= x < n && 0 <= y < n
      ensures after[y][x] == DrawnCell(n, g, marks, bits, k + 1, x, y)
    {
      assert before[y][x] == DrawnCell(n, g, marks, bits, k, x, y);
      if x != 6 {
        IndexInScan(n, x, y);
        assert IndexOf(n, x, y) == k ==> (x, y) == (cx, cy);
      }
    }
  }

  // ----- Reading the scan back -----

  /** The unmarked modules among the first `k` cells of the scan, in visiting order. */
  function ReadScan(n: nat, g: Grid, marks: Grid, k: nat): (b: Bits)
    requires ValidSize(n) && Square(g, n) && Square(marks, n) && k <= NumCells(n)
    ensures |b| == Rank(n, marks, k)
  {
    if k == 0 then [] else
      var (x, y) := CellAt(n, k - 1);
      ReadScan(n, g, marks, k - 1) + (if Free(n, marks, k - 1) then [g[y][x]] else [])
  }

  lemma {:induction false} ReadPrefix(n: nat, g: Grid, marks: Grid, bits: Bits, result: Grid, k: nat)
    requires ValidSize(n) && Square(g, n) && Square(marks, n) && k <= NumCells(n)
    requires DrawnUpTo(n, g, marks, bits, NumCells(n), result)
    ensures forall i :: 0 <= i < |bits| && i < Rank(n, marks, k) ==> ReadScan(n, result, marks, k)[i] == bits[i]
  {
    hide IndexOf, NumCells, CellAt;
    if k > 0 {
      ReadPrefix(n, g, marks, bits, result, k - 1);
      var (x, y) := CellAt(n, k - 1);
      ScanHitsIndex(n, k - 1);
      assert result[y][x] == DrawnCell(n, g, marks, bits, NumCells(n), x, y);
    }
  }

  /** If there is room, reading a drawn grid in scan order returns every bit; marked modules are untouched. */
  lemma ScanRoundTrip(n: nat, g: Grid, marks: Grid, bits: Bits, result: Grid)
    requires ValidSize(n) && Square(g, n) && Square(marks, n)
    requires DrawnUpTo(n, g, marks, bits, NumCells(n), result)
    requires |bits| <= Rank(n, marks, NumCells(n))
    ensures ReadScan(n, result, marks, NumCells(n))[..|bits|] == bits
    ensures forall x, y :: 0 <= x < n && 0 <= y < n && marks[y][x] ==> result[y][x] == g[y][x]
  {
    hide IndexOf, NumCells, CellAt, Rank, ReadScan;
    ReadPrefix(n, g, marks, bits, result, NumCells(n));
  }
}
