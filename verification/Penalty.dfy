/**
 * The penalty score, as a declarative sum over runs, blocks and balance, and the one-pass
 * scoring of a line with its seven-entry run history.
 */
module Penalty {
  import opened Basics
  import opened Counting
  import opened Grids

  const PENALTY_N1 := 3
  const PENALTY_N2 := 3
  const PENALTY_N3 := 40
  const PENALTY_N4 := 10

  type Line = seq<bool>

  // ----- Run-length encoding -----

  datatype Run = Run(colour: bool, length: nat)

  function Solid(colour: bool, k: nat): (s: Line)
    ensures |s| == k && forall i :: 0 <= i < k ==> s[i] == colour
  {
    seq(k, _ => colour)
  }

  /** One more cell lengthens the last run or starts a new one. */
  function Extend(r: seq<Run>, colour: bool): seq<Run> {
    if r != [] && r[|r| - 1].colour == colour then r[..|r| - 1] + [Run(colour, r[|r| - 1].length + 1)]
    else r + [Run(colour, 1)]
  }

  /** The maximal runs of a line, from left to right. */
  function RunsOf(s: Line): (r: seq<Run>)
    ensures r == [] <==> s == []
    ensures s != [] ==> r[|r| - 1].colour == s[|s| - 1]
  {
    if s == [] then [] else Extend(RunsOf(s[..|s| - 1]), s[|s| - 1])
  }

  /** A run as long as five costs its length minus two. */
  function RunCost(length: nat): nat {
    if length >= 5 then length - 2 else 0
  }

  function RunCosts(r: seq<Run>): nat {
    if r == [] then 0 else RunCosts(r[..|r| - 1]) + RunCost(r[|r| - 1].length)
  }

  function Lengths(r: seq<Run>): (l: seq<nat>)
    ensures |l| == |r| && forall i :: 0 <= i < |r| ==> l[i] == r[i].length
  {
    seq(|r|, i requires 0 <= i < |r| => r[i].length)
  }

  /** The line with these run lengths, white first and alternating. */
  function Expand(lengths: seq<nat>): Line {
    if lengths == [] then [] else
      var m := |lengths| - 1;
      Expand(lengths[..m]) + Solid(m % 2 == 1, lengths[m])
  }

  // ----- Finder-like patterns -----

  /** The patterns 1:1:3:1:1 with a light border of four on one side, ending with run `t`. */
  function PatternsAt(l: seq<nat>, t: nat): nat
    requires t < |l|
  {
    if t < 6 then 0 else
      var n := l[t - 1];
      var core := n > 0 && l[t - 2] == n && l[t - 3] == 3 * n && l[t - 4] == n && l[t - 5] == n;
      (if core && l[t] >= 4 * n && l[t - 6] >= n then 1 else 0)
      + (if core && l[t - 6] >= 4 * n && l[t] >= n then 1 else 0)
  }

  /** The patterns ending with a white run; white runs have even places. */
  function PatternCount(l: seq<nat>): nat {
    if l == [] then 0 else
      var m := |l| - 1;
      PatternCount(l[..m]) + (if m % 2 == 0 then PatternsAt(l, m) else 0)
  }

  /** The line between two white borders as wide as itself. */
  function Bordered(line: Line): Line {
    Solid(false, |line|) + line + Solid(false, |line|)
  }

  function LineScore(line: Line): nat {
    RunCosts(RunsOf(line)) + PENALTY_N3 * PatternCount(Lengths(RunsOf(Bordered(line))))
  }

  // ----- Blocks and balance -----

  predicate Uniform(g: Grid, n: nat, x: int, y: int)
    requires Square(g, n) && 0 <= x < n - 1 && 0 <= y < n - 1
  {
    g[y][x] == g[y][x + 1] == g[y + 1][x] == g[y + 1][x + 1]
  }

  function Blocks(g: Grid, n: nat): set<Cell>
    requires Square(g, n)
  {
    set x, y | 0 <= x < n - 1 && 0 <= y < n - 1 && Uniform(g, n, x, y) :: (x, y)
  }

  function Blacks(g: Grid, n: nat): set<Cell>
    requires Square(g, n)
  {
    set x, y | 0 <= x < n && 0 <= y < n && g[y][x] :: (x, y)
  }

  /** The share of black lies between (45 - 5k)% and (55 + 5k)%. */
  predicate InBand(black: nat, total: nat, k: nat) {
    (45 - 5 * k) * total <= 100 * black <= (55 + 5 * k) * total
  }

  function BalanceSteps(black: nat, total: nat): int
    requires total > 0
  {
    var d := black * 20 - total * 10;
    ((if d < 0 then -d else d) + total - 1) / total - 1
  }

  function Column(g: Grid, n: nat, x: int): (c: Line)
    requires Square(g, n) && 0 <= x < n
    ensures |c| == n && forall y :: 0 <= y < n ==> c[y] == g[y][x]
  {
    seq(n, y requires 0 <= y < n => g[y][x])
  }

  function RowScores(g: Grid, n: nat, k: nat): nat
    requires Square(g, n) && k <= n
  {
    if k == 0 then 0 else RowScores(g, n, k - 1) + LineScore(g[k - 1])
  }

  function ColumnScores(g: Grid, n: nat, k: nat): nat
    requires Square(g, n) && k <= n
  {
    if k == 0 then 0 else ColumnScores(g, n, k - 1) + LineScore(Column(g, n, k - 1))
  }

  function Score(g: Grid, n: nat): int
    requires Square(g, n) && n > 0
  {
    RowScores(g, n, n) + ColumnScores(g, n, n) + PENALTY_N2 * |Blocks(g, n)|
    + PENALTY_N4 * BalanceSteps(|Blacks(g, n)|, n * n)
  }

  // ----- The reference definitions mean what they say -----

  lemma {:induction false} RunsAppend(s: Line, colour: bool, k: nat)
    requires k > 0 && (s == [] || s[|s| - 1] != colour)
    ensures RunsOf(s + Solid(colour, k)) == RunsOf(s) + [Run(colour, k)]
  {
    hide Extend;
    var t, u := s + Solid(colour, k), s + Solid(colour, k - 1);
    assert t[..|t| - 1] == u && t[|t| - 1] == colour;
    assert RunsOf(t) == Extend(RunsOf(u), colour);
    if k > 1 {
      RunsAppend(s, colour, k - 1);
      ExtendLast(RunsOf(s), colour, k - 1);
    } else {
      assert u == s;
      ExtendNew(RunsOf(s), colour);
    }
  }

  lemma ExtendLast(r: seq<Run>, colour: bool, k: nat)
    ensures Extend(r + [Run(colour, k)], colour) == r + [Run(colour, k + 1)]
  {
  }

  lemma ExtendNew(r: seq<Run>, colour: bool)
    requires r == [] || r[|r| - 1].colour != colour
    ensures Extend(r, colour) == r + [Run(colour, 1)]
  {
  }

  /** Run lengths are determined by the line: any white-first alternating decomposition is the one. */
  lemma {:induction false} RunsOfExpand(l: seq<nat>)
    requires forall i :: 0 <= i < |l| ==> l[i] > 0
    ensures Lengths(RunsOf(Expand(l))) == l
    ensures |Expand(l)| > 0 <==> l != []
    ensures l != [] ==> Expand(l)[|Expand(l)| - 1] == (|l| % 2 == 0)
  {
    hide RunsOf;
    if l == [] {
      assert RunsOf([]) == [];
    } else {
      var m := |l| - 1;
      var e := Expand(l[..m]);
      RunsOfExpand(l[..m]);
      RunsAppend(e, m % 2 == 1, l[m]);
      assert Expand(l) == e + Solid(m % 2 == 1, l[m]);
      assert l == l[..m] + [l[m]];
    }
  }

  lemma {:induction false} ExpandHolds(l: seq<nat>, i: nat)
    requires i < |l|
    ensures l[i] <= |Expand(l)|
  {
    if i < |l| - 1 {
      ExpandHolds(l[..|l| - 1], i);
    }
  }

  /** The balance term counts the least k that puts the share of black in the band. */
  lemma BalanceIsLeast(black: nat, n: nat)
    requires n % 2 == 1
    ensures n * n > 0
    ensures var k := BalanceSteps(black, n * n);
            k >= 0 && InBand(black, n * n, k) && forall j: nat :: j < k ==> !InBand(black, n * n, j)
  {
    hide InBand;
    var total := n * n;
    var d := black * 20 - total * 10;
    var a := if d < 0 then -d else d;
    OddSquare(n);
    assert d != 0;
    var k := BalanceSteps(black, total);
    CeilingIs(a, total);
    BandWidth(black, total, k);
    forall j: nat | j < k
      ensures !InBand(black, total, j)
    {
      BandWidth(black, total, j);
      LessSteps(j + 1, k, total);
    }
  }

  lemma LessSteps(j: nat, k: nat, total: nat)
    requires j <= k
    ensures j * total <= k * total
  {
  }

  lemma OddSquare(n: nat)
    requires n % 2 == 1
    ensures (n * n) % 2 == 1
  {
    var h := n / 2;
    assert n == 2 * h + 1;
    assert n * n == 2 * (2 * h * h + 2 * h) + 1;
  }

  lemma CeilingIs(a: nat, total: nat)
    requires a > 0 && total > 0
    ensures var k := (a + total - 1) / total - 1; k >= 0 && k * total < a <= (k + 1) * total
  {
    var q := (a + total - 1) / total;
    assert q * total <= a + total - 1 < q * total + total;
    assert (q - 1) * total == q * total - total;
  }

  lemma BandWidth(black: nat, total: nat, j: nat)
    ensures InBand(black, total, j) <==> black * 20 - total * 10 <= (j + 1) * total && total * 10 - black * 20 <= (j + 1) * total
  {
    assert (55 + 5 * j) * total == 5 * ((j + 1) * total) + 50 * total;
    assert (45 - 5 * j) * total == 50 * total - 5 * ((j + 1) * total);
  }

  /** Positive runs, alternating and white first, that expand to the line. */
  predicate Decomposes(r: seq<Run>, s: Line) {
    && Expand(Lengths(r)) == s
    && forall i :: 0 <= i < |r| ==> r[i].length > 0 && r[i].colour == (i % 2 == 1)
  }

  /** Putting the runs back together gives the line. */
  lemma {:induction false} RunsReassemble(s: Line)
    requires s == [] || !s[0]
    ensures Decomposes(RunsOf(s), s)
  {
    hide Decomposes, Extend;
    if s == [] {
      NoRuns();
    } else {
      var m := |s| - 1;
      RunsReassemble(s[..m]);
      ExtendDecomposes(RunsOf(s[..m]), s[..m], s[m]);
      assert s == s[..m] + [s[m]];
    }
  }

  lemma NoRuns()
    ensures Decomposes([], [])
  {
  }

  lemma ExtendDecomposes(r: seq<Run>, s: Line, colour: bool)
    requires Decomposes(r, s) && (r == [] ==> !colour)
    ensures Decomposes(Extend(r, colour), s + [colour])
  {
    hide Expand;
    var r' := Extend(r, colour);
    if r == [] {
      assert Lengths(r') == [1] && Lengths(r) == [];
      ExpandStep([], 1);
      assert [] + [1] == [1];
      assert Solid(false, 1) == [false];
    } else {
      var k := |r| - 1;
      var l, last, same := Lengths(r[..k]), r[k].length, r[k].colour == colour;
      assert Lengths(r) == l + [last];
      assert Lengths(r') == if same then l + [last + 1] else l + [last] + [1];
      ReassembleStep(r[..k], last, same, colour);
    }
  }

  /** Lengthening the last run, or adding a run of one, adds one cell. */
  lemma ReassembleStep(r: seq<Run>, last: nat, same: bool, colour: bool)
    requires colour == (if same then |r| % 2 == 1 else |r| % 2 == 0)
    ensures var l := Lengths(r);
            Expand(if same then l + [last + 1] else l + [last] + [1]) == Expand(l + [last]) + [colour]
  {
    var l := Lengths(r);
    ExpandStep(l, last);
    if same {
      ExpandStep(l, last + 1);
      assert Solid(colour, last + 1) == Solid(colour, last) + [colour];
    } else {
      ExpandStep(l + [last], 1);
      assert Solid(colour, 1) == [colour];
    }
  }

  lemma ExpandStep(l: seq<nat>, k: nat)
    ensures Expand(l + [k]) == Expand(l) + Solid(|l| % 2 == 1, k)
  {
    assert (l + [k])[..|l|] == l;
  }

  // ----- The run history -----

  type History = h: seq<nat> | |h| == 7 witness [0, 0, 0, 0, 0, 0, 0]

  /** The last seven pushed runs, newest first, zero where there are none. */
  function HistoryOf(pushed: seq<nat>): History {
    seq(7, k requires 0 <= k < 7 => if k < |pushed| then pushed[|pushed| - 1 - k] else 0)
  }

  function AddHistory(size: nat, current: nat, h: History): History {
    [if h[0] == 0 then current + size else current] + h[..6]
  }

  function CountPatterns(h: History): nat {
    var n := h[1];
    var core := n > 0 && h[2] == n && h[3] == n * 3 && h[4] == n && h[5] == n;
    (if core && h[0] >= n * 4 && h[6] >= n then 1 else 0) + (if core && h[6] >= n * 4 && h[0] >= n then 1 else 0)
  }

  predicate Positive(l: seq<nat>) {
    forall i :: 0 <= i < |l| ==> l[i] > 0
  }

  /** The length of the current run, with the border added to the first one. */
  function Current(size: nat, pushed: seq<nat>, run: nat): nat {
    if pushed == [] then run + size else run
  }

  lemma PushIsHistory(size: nat, pushed: seq<nat>, run: nat)
    requires Positive(pushed)
    ensures AddHistory(size, run, HistoryOf(pushed)) == HistoryOf(pushed + [Current(size, pushed, run)])
  {
  }

  lemma CountIsPatternsAt(l: seq<nat>)
    requires Positive(l) && |l| % 2 == 1
    ensures CountPatterns(HistoryOf(l)) == PatternsAt(l, |l| - 1)
  {
  }

  lemma PatternCountStep(l: seq<nat>, cur: nat)
    ensures PatternCount(l + [cur]) == PatternCount(l) + (if |l| % 2 == 0 then PatternsAt(l + [cur], |l|) else 0)
  {
    assert (l + [cur])[..|l|] == l;
  }

  // ----- Scoring one line -----

  /** What the loop has seen: the pushed runs and the current one, border included. */
  ghost predicate Seen(size: nat, seen: Line, pushed: seq<nat>, colour: bool, run: nat) {
    && Positive(pushed) && (pushed != [] ==> run > 0) && colour == (|pushed| % 2 == 1)
    && Expand(pushed + [Current(size, pushed, run)]) == Solid(false, size) + seen
  }

  /** And the runs of the line itself. */
  ghost predicate Scored(seen: Line, colour: bool, run: nat) {
    if run == 0 then seen == [] && !colour
    else
      var r := RunsOf(seen);
      r != [] && r[|r| - 1] == Run(colour, run)
  }

  lemma SeenSame(size: nat, seen: Line, pushed: seq<nat>, colour: bool, run: nat)
    requires Seen(size, seen, pushed, colour, run)
    ensures Seen(size, seen + [colour], pushed, colour, run + 1)
  {
    var l, cur := pushed, Current(size, pushed, run);
    ExpandStep(l, cur);
    ExpandStep(l, cur + 1);
    assert Expand(l) + Solid(colour, cur + 1) == (Expand(l) + Solid(colour, cur)) + [colour];
    assert Solid(false, size) + (seen + [colour]) == (Solid(false, size) + seen) + [colour];
  }

  lemma SeenOther(size: nat, seen: Line, pushed: seq<nat>, colour: bool, run: nat)
    requires size > 0 && Seen(size, seen, pushed, colour, run)
    ensures Seen(size, seen + [!colour], pushed + [Current(size, pushed, run)], !colour, 1)
  {
    var l := pushed + [Current(size, pushed, run)];
    ExpandStep(l, 1);
    assert Solid(!colour, 1) == [!colour];
  }

  lemma ScoredSame(seen: Line, colour: bool, run: nat)
    requires Scored(seen, colour, run)
    ensures Scored(seen + [colour], colour, run + 1)
    ensures RunCosts(RunsOf(seen + [colour])) ==
            RunCosts(RunsOf(seen)) + (if run + 1 == 5 then PENALTY_N1 else if run + 1 > 5 then 1 else 0)
  {
    var r, r' := RunsOf(seen), RunsOf(seen + [colour]);
    assert (seen + [colour])[..|seen|] == seen;
    if run > 0 {
      assert r'[..|r'| - 1] == r[..|r| - 1];
    }
  }

  lemma ScoredOther(seen: Line, colour: bool, run: nat)
    requires Scored(seen, colour, run)
    ensures Scored(seen + [!colour], !colour, 1)
    ensures RunCosts(RunsOf(seen + [!colour])) == RunCosts(RunsOf(seen))
  {
    var r, r' := RunsOf(seen), RunsOf(seen + [!colour]);
    assert (seen + [!colour])[..|seen|] == seen;
    assert r'[..|r'| - 1] == r;
  }

  lemma ScoreStart(size: nat)
    ensures Seen(size, [], [], false, 0) && Scored([], false, 0)
    ensures HistoryOf([]) == [0, 0, 0, 0, 0, 0, 0]
    ensures RunCosts(RunsOf([])) == 0 && PatternCount([]) == 0
  {
    ExpandStep([], size);
    assert [] + [size] == [size];
    assert Expand([]) == [];
  }

  /** Pushing a run keeps the history, and patterns are counted after white runs only. */
  lemma PushIsCounted(size: nat, pushed: seq<nat>, run: nat)
    requires Positive(pushed) && (pushed != [] ==> run > 0) && size > 0
    ensures var next := pushed + [Current(size, pushed, run)];
            && Positive(next)
            && AddHistory(size, run, HistoryOf(pushed)) == HistoryOf(next)
            && PatternCount(next) == PatternCount(pushed)
                                     + (if |pushed| % 2 == 0 then CountPatterns(HistoryOf(next)) else 0)
  {
    hide CountPatterns, HistoryOf, AddHistory, PatternCount;
    var next := pushed + [Current(size, pushed, run)];
    PushIsHistory(size, pushed, run);
    PatternCountStep(pushed, Current(size, pushed, run));
    if |pushed| % 2 == 0 {
      CountIsPatternsAt(next);
    }
  }

  lemma HistoryBound(l: seq<nat>, bound: nat)
    requires |Expand(l)| <= bound
    ensures HistoryOf(l)[1] <= bound
  {
    if |l| >= 2 {
      ExpandHolds(l, |l| - 2);
    }
  }

  lemma PushRun(size: nat, seen: Line, pushed: seq<nat>, colour: bool, run: nat)
    requires Seen(size, seen, pushed, colour, run) && 0 < size && |seen| <= size
    ensures var next := pushed + [Current(size, pushed, run)];
            && AddHistory(size, run, HistoryOf(pushed)) == HistoryOf(next)
            && HistoryOf(next)[1] <= 3 * size
            && PatternCount(next) == PatternCount(pushed) + (if !colour then CountPatterns(HistoryOf(next)) else 0)
  {
    hide CountPatterns, HistoryOf, AddHistory, PatternCount, Current, Expand;
    PushIsCounted(size, pushed, run);
    HistoryBound(pushed + [Current(size, pushed, run)], 3 * size);
  }

  /** Closing the last run completes the run-length encoding of the bordered line. */
  lemma PushLast(size: nat, line: Line, pushed: seq<nat>, colour: bool, run: nat)
    requires Seen(size, line, pushed, colour, run) && 0 < size == |line|
    ensures var p := if colour then pushed + [Current(size, pushed, run)] else pushed;
            var r := (if colour then 0 else run) + size;
            var last := p + [Current(size, p, r)];
            && (colour ==> AddHistory(size, run, HistoryOf(pushed)) == HistoryOf(p) && PatternCount(p) == PatternCount(pushed))
            && AddHistory(size, r, HistoryOf(p)) == HistoryOf(last)
            && HistoryOf(last)[1] <= 3 * size
            && PatternCount(last) == PatternCount(p) + CountPatterns(HistoryOf(last))
            && LineScore(line) == RunCosts(RunsOf(line)) + PENALTY_N3 * PatternCount(last)
  {
    hide CountPatterns, HistoryOf, AddHistory, PatternCount, Expand, RunsOf, RunCosts;
    var cur := Current(size, pushed, run);
    var p := if colour then pushed + [cur] else pushed;
    var r := (if colour then 0 else run) + size;
    var last := p + [Current(size, p, r)];
    if colour {
      PushIsCounted(size, pushed, run);
    }
    PushIsCounted(size, p, r);
    assert Expand(last) == Bordered(line) by {
      if colour {
        ExpandStep(p, size);
      } else {
        ExpandStep(pushed, cur);
        ExpandStep(pushed, cur + size);
        assert Solid(false, cur + size) == Solid(false, cur) + Solid(false, size);
        assert Expand(pushed) + (Solid(false, cur) + Solid(false, size)) == (Expand(pushed) + Solid(false, cur)) + Solid(false, size);
      }
    }
    HistoryBound(last, 3 * size);
    RunsOfExpand(last);
  }

  /** The first loop nest of getPenaltyScore, for one row or column. */
  method ScoreLine(line: Line) returns (result: nat)
    requires line != []
    ensures result == LineScore(line)
  {
    hide RunsOf, RunCosts, PatternCount, PatternsAt, CountPatterns, AddHistory, HistoryOf, Seen, Scored, LineScore, Current;
    var size := |line|;
    result := 0;
    var runColor, runX := false, 0;
    var runHistory: History := [0, 0, 0, 0, 0, 0, 0];
    ghost var pushed: seq<nat> := [];
    ScoreStart(size);
    for x := 0 to size
      invariant Seen(size, line[..x], pushed, runColor, runX) && Scored(line[..x], runColor, runX)
      invariant runHistory == HistoryOf(pushed)
      invariant result == RunCosts(RunsOf(line[..x])) + PENALTY_N3 * PatternCount(pushed)
    {
      assert line[..x + 1] == line[..x] + [line[x]];
      if line[x] == runColor {
        SeenSame(size, line[..x], pushed, runColor, runX);
        ScoredSame(line[..x], runColor, runX);
        runX := runX + 1;
        if runX == 5 {
          result := result + PENALTY_N1;
        } else if runX > 5 {
          result := result + 1;
        }
      } else {
        PushRun(size, line[..x], pushed, runColor, runX);
        runHistory := AddHistory(size, runX, runHistory);
        pushed := pushed + [Current(size, pushed, runX)];
        if !runColor {
          assert runHistory[1] <= size * 3;
          result := result + CountPatterns(runHistory) * PENALTY_N3;
        }
        SeenOther(size, line[..x], pushed[..|pushed| - 1], runColor, runX);
        ScoredOther(line[..x], runColor, runX);
        runColor := line[x];
        runX := 1;
      }
    }
    assert line[..size] == line;
    PushLast(size, line, pushed, runColor, runX);
    if runColor {
      runHistory := AddHistory(size, runX, runHistory);
      pushed := pushed + [Current(size, pushed, runX)];
      runX := 0;
    }
    runX := runX + size;
    runHistory := AddHistory(size, runX, runHistory);
    pushed := pushed + [Current(size, pushed, runX)];
    assert runHistory[1] <= size * 3;
    result := result + CountPatterns(runHistory) * PENALTY_N3;
  }

  // ----- Scoring a grid -----

  /** The uniform blocks in rows above `y`, and left of `x` in row `y`. */
  function BlocksBefore(g: Grid, n: nat, x: int, y: int): set<Cell>
    requires Square(g, n)
  {
    set c | c in Blocks(g, n) && (c.1 < y || (c.1 == y && c.0 < x))
  }

  function BlacksBefore(g: Grid, n: nat, x: int, y: int): set<Cell>
    requires Square(g, n)
  {
    set c | c in Blacks(g, n) && (c.1 < y || (c.1 == y && c.0 < x))
  }

  lemma BlocksStep(g: Grid, n: nat, x: int, y: int)
    requires Square(g, n) && 0 <= x < n - 1 && 0 <= y < n - 1
    ensures |BlocksBefore(g, n, x + 1, y)| == |BlocksBefore(g, n, x, y)| + (if Uniform(g, n, x, y) then 1 else 0)
  {
    var a, b := BlocksBefore(g, n, x, y), BlocksBefore(g, n, x + 1, y);
    if Uniform(g, n, x, y) {
      assert (x, y) in Blocks(g, n);
      assert b == a + {(x, y)};
    } else {
      assert b == a;
    }
  }

  lemma BlacksStep(g: Grid, n: nat, x: int, y: int)
    requires Square(g, n) && 0 <= x < n && 0 <= y < n
    ensures |BlacksBefore(g, n, x + 1, y)| == |BlacksBefore(g, n, x, y)| + (if g[y][x] then 1 else 0)
  {
    var a, b := BlacksBefore(g, n, x, y), BlacksBefore(g, n, x + 1, y);
    if g[y][x] {
      assert (x, y) in Blacks(g, n);
      assert b == a + {(x, y)};
    } else {
      assert b == a;
    }
  }

  method CountBlocks(g: Grid, n: nat) returns (result: nat)
    requires Square(g, n) && n > 0
    ensures result == PENALTY_N2 * |Blocks(g, n)|
  {
    hide Blocks, Uniform, BlocksBefore;
    result := 0;
    assert BlocksBefore(g, n, 0, 0) == {} by { BlocksEnds(g, n, 0); }
    for y := 0 to n - 1
      invariant result == PENALTY_N2 * |BlocksBefore(g, n, 0, y)|
    {
      for x := 0 to n - 1
        invariant result == PENALTY_N2 * |BlocksBefore(g, n, x, y)|
      {
        BlocksStep(g, n, x, y);
        var color := g[y][x];
        assert Uniform(g, n, x, y) <==> color == g[y][x + 1] && color == g[y + 1][x] && color == g[y + 1][x + 1] by {
          UniformIs(g, n, x, y);
        }
        if color == g[y][x + 1] && color == g[y + 1][x] && color == g[y + 1][x + 1] {
          result := result + PENALTY_N2;
        }
      }
      BlocksEnds(g, n, y);
    }
    BlocksEnds(g, n, n - 1);
  }

  lemma UniformIs(g: Grid, n: nat, x: int, y: int)
    requires Square(g, n) && 0 <= x < n - 1 && 0 <= y < n - 1
    ensures Uniform(g, n, x, y) <==> g[y][x] == g[y][x + 1] && g[y][x] == g[y + 1][x] && g[y][x] == g[y + 1][x + 1]
  {
  }

  lemma BlocksEnds(g: Grid, n: nat, y: int)
    requires Square(g, n) && n > 0
    ensures BlocksBefore(g, n, n - 1, y) == BlocksBefore(g, n, 0, y + 1)
    ensures BlocksBefore(g, n, 0, 0) == {}
    ensures BlocksBefore(g, n, 0, n - 1) == Blocks(g, n)
  {
  }

  method CountBlacks(g: Grid, n: nat) returns (black: nat)
    requires Square(g, n)
    ensures black == |Blacks(g, n)|
  {
    hide Blacks, BlacksBefore;
    black := 0;
    assert BlacksBefore(g, n, 0, 0) == {} by { BlacksEnds(g, n, 0); }
    for y := 0 to |g|
      invariant black == |BlacksBefore(g, n, 0, y)|
    {
      for x := 0 to |g[y]|
        invariant black == |BlacksBefore(g, n, x, y)|
      {
        BlacksStep(g, n, x, y);
        if g[y][x] {
          black := black + 1;
        }
      }
      BlacksEnds(g, n, y);
    }
    BlacksEnds(g, n, n);
  }

  lemma BlacksEnds(g: Grid, n: nat, y: int)
    requires Square(g, n)
    ensures BlacksBefore(g, n, n, y) == BlacksBefore(g, n, 0, y + 1)
    ensures BlacksBefore(g, n, 0, 0) == {}
    ensures BlacksBefore(g, n, 0, n) == Blacks(g, n)
  {
  }

  /** The whole of getPenaltyScore. */
  method ScoreGrid(g: Grid, n: nat) returns (result: int)
    requires Square(g, n) && n > 0
    ensures result == Score(g, n)
  {
    hide LineScore, Blocks, Blacks;
    result := 0;
    for y := 0 to n
      invariant result == RowScores(g, n, y)
    {
      var s := ScoreLine(g[y]);
      result := result + s;
    }
    for x := 0 to n
      invariant result == RowScores(g, n, n) + ColumnScores(g, n, x)
    {
      var s := ScoreLine(Column(g, n, x));
      result := result + s;
    }
    var blocks := CountBlocks(g, n);
    result := result + blocks;
    var black := CountBlacks(g, n);
    var total := n * n;
    var difference := black * 20 - total * 10;
    var k := ((if difference < 0 then -difference else difference) + total - 1) / total - 1;
    result := result + k * PENALTY_N4;
  }

  // ----- The score stays far below LONG_MAX -----

  lemma {:induction false} RunBound(s: Line)
    ensures |RunsOf(s)| <= |s| && RunCosts(RunsOf(s)) <= 3 * |s|
  {
    hide Extend, RunCosts;
    if s != [] {
      var m := |s| - 1;
      RunBound(s[..m]);
      ExtendBound(RunsOf(s[..m]), s[m]);
    } else {
      NoCost();
    }
  }

  lemma NoCost()
    ensures RunCosts([]) == 0
  {
  }

  lemma ExtendBound(r: seq<Run>, colour: bool)
    ensures |Extend(r, colour)| <= |r| + 1 && RunCosts(Extend(r, colour)) <= RunCosts(r) + 3
  {
    var r' := Extend(r, colour);
    if r != [] && r[|r| - 1].colour == colour {
      assert r'[..|r'| - 1] == r[..|r| - 1];
    } else {
      assert r'[..|r'| - 1] == r;
    }
  }

  lemma {:induction false} PatternBound(l: seq<nat>)
    ensures PatternCount(l) <= 2 * |l|
  {
    if l != [] {
      PatternBound(l[..|l| - 1]);
    }
  }

  lemma LineBound(line: Line)
    ensures LineScore(line) <= 243 * |line|
  {
    hide RunsOf, RunCosts, PatternCount;
    RunBound(line);
    RunBound(Bordered(line));
    PatternBound(Lengths(RunsOf(Bordered(line))));
  }

  lemma {:induction false} LinesBound(g: Grid, n: nat, k: nat)
    requires Square(g, n) && k <= n
    ensures RowScores(g, n, k) <= 243 * n * k && ColumnScores(g, n, k) <= 243 * n * k
  {
    hide LineScore;
    if k > 0 {
      LinesBound(g, n, k - 1);
      LineBound(g[k - 1]);
      LineBound(Column(g, n, k - 1));
      assert 243 * n * k == 243 * n * (k - 1) + 243 * n;
    }
  }

  lemma BalanceBound(black: nat, total: nat)
    requires total > 0 && black <= total
    ensures -1 <= BalanceSteps(black, total) <= 9
  {
    var d := black * 20 - total * 10;
    var a := if d < 0 then -d else d;
    if a > 0 {
      CeilingIs(a, total);
      CancelFactor(BalanceSteps(black, total), 10, total);
    } else {
      SmallQuotient(total);
    }
  }

  lemma SmallQuotient(total: nat)
    requires total > 0
    ensures (total - 1) / total == 0
  {
  }

  /** On every symbol size the score fits a 32-bit integer with room to spare. */
  lemma ScoreBound(g: Grid, n: nat)
    requires Square(g, n) && 1 <= n <= 177
    ensures -10 <= Score(g, n) < 0x7FFF_FFFF
  {
    hide RowScores, ColumnScores, BalanceSteps, Blocks, Blacks;
    LinesBound(g, n, n);
    CellBounds(g, n);
    SquareBound(n);
    BalanceBound(|Blacks(g, n)|, n * n);
  }

  lemma SquareBound(n: nat)
    requires 1 <= n <= 177
    ensures 0 < n * n <= 31329 && 243 * n * n <= 7612947
  {
    assert n * n <= 177 * n <= 177 * 177;
    assert 243 * n * n == 243 * (n * n);
  }

  lemma CellBounds(g: Grid, n: nat)
    requires Square(g, n)
    ensures |Blocks(g, n)| <= n * n && |Blacks(g, n)| <= n * n
  {
    RectCard(0, n, 0, n);
    assert Blocks(g, n) <= Rect(0, n, 0, n);
    assert Blacks(g, n) <= Rect(0, n, 0, n);
    SubsetCard(Blocks(g, n), Rect(0, n, 0, n));
    SubsetCard(Blacks(g, n), Rect(0, n, 0, n));
  }
}
