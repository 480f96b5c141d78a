/** What the function patterns look like. */
module PatternMeaning {
  import opened Capacity
  import opened Patterns
  import opened Segments

  // ----- Finders -----

  /** A dark ring seven wide around a dark square three wide, in the top left corner. */
  lemma FinderIsRingAndSquare(n: nat, x: int, y: int)
    requires n >= 21 && 0 <= x <= 6 && 0 <= y <= 6
    ensures FinderCell(n, x, y)
    ensures FinderColour(n, x, y) <==> x == 0 || x == 6 || y == 0 || y == 6 || (2 <= x <= 4 && 2 <= y <= 4)
  {
  }

  /** A light line separates it from the rest. */
  lemma FinderIsSeparated(n: nat, k: int)
    requires n >= 21 && 0 <= k <= 7
    ensures FinderCell(n, 7, k) && FinderCell(n, k, 7) && !FinderColour(n, 7, k) && !FinderColour(n, k, 7)
  {
  }

  /** The other two are the same, mirrored into the corners to the right and below; there is no other. */
  lemma FindersAreAlike(n: nat, x: int, y: int)
    requires n >= 21 && 0 <= x <= 7 && 0 <= y <= 7
    ensures FinderCell(n, n - 1 - x, y) && FinderColour(n, n - 1 - x, y) == FinderColour(n, x, y)
    ensures FinderCell(n, x, n - 1 - y) && FinderColour(n, x, n - 1 - y) == FinderColour(n, x, y)
  {
  }

  lemma OnlyThreeFinders(n: nat, x: int, y: int)
    requires n >= 21 && 0 <= x < n && 0 <= y < n
    ensures FinderCell(n, x, y) <==> (x <= 7 || n - 8 <= x) && (y <= 7 || n - 8 <= y) && !(n - 8 <= x && n - 8 <= y)
  {
  }

  /** Through the middle of a finder the modules run 1 : 1 : 3 : 1 : 1, along either axis. */
  lemma FinderRuns(n: nat)
    requires n >= 21
    ensures seq(7, x => FinderColour(n, x, 3)) == [true, false, true, true, true, false, true]
    ensures seq(7, y => FinderColour(n, 3, y)) == [true, false, true, true, true, false, true]
  {
  }

  // ----- Timing -----

  /** Between the finders dark and light modules alternate, starting dark. */
  lemma TimingAlternates(k: int)
    requires k >= 8
    ensures TimingCell(6, k) && TimingCell(k, 6) && TimingColour(6, 8) && TimingColour(8, 6)
    ensures TimingColour(6, k + 1) != TimingColour(6, k) && TimingColour(k + 1, 6) != TimingColour(k, 6)
  {
  }

  // ----- Alignment patterns -----

  /** A dark module in a light ring in a dark ring. */
  lemma AlignmentIsRings(pos: seq<int>, n: nat, i: nat, j: nat, dx: int, dy: int)
    requires Spaced(pos, n) && i < |pos| && j < |pos| && !Corner(i, j, |pos|) && -2 <= dx <= 2 && -2 <= dy <= 2
    ensures AlignmentCell(pos, pos[i] + dx, pos[j] + dy)
    ensures AlignmentColour(pos, pos[i] + dx, pos[j] + dy)
            <==> (dx == 0 && dy == 0) || dx == 2 || dx == -2 || dy == 2 || dy == -2
  {
    hide Spaced, Near;
    NearIs(pos, n, pos[i] + dx, i);
    NearIs(pos, n, pos[j] + dy, j);
  }

  /** The step is the least even one with which the centres reach from the first to the last. */
  predicate LeastEvenStep(ver: int)
    requires 2 <= ver
  {
    var span, gaps, step := 4 * ver + 4, NumAlign(ver) - 1, AlignStep(ver);
    step % 2 == 0 && gaps * (step - 2) < span <= gaps * step
  }

  lemma LeastEven(span: nat, gaps: nat)
    requires gaps >= 1
    ensures var q := (span + 2 * gaps - 1) / (2 * gaps); gaps * (q * 2 - 2) < span <= gaps * (q * 2)
  {
    var d := 2 * gaps;
    var q := (span + d - 1) / d;
    assert span + d - 1 == d * q + (span + d - 1) % d;
    assert gaps * (q * 2) == d * q;
    assert gaps * (q * 2 - 2) == d * q - d;
  }

  /** The centres of every version; version 32 is the exception, two less than the rule. */
  lemma AlignStepIs(ver: int)
    requires 2 <= ver <= 40
    ensures ver != 32 ==> LeastEvenStep(ver)
    ensures ver == 32 ==> AlignPositions(ver) == [6, 34, 60, 86, 112, 138]
    ensures var pos := AlignPositions(ver);
            pos[0] == 6 && forall i :: 1 <= i < |pos| ==> pos[i] == SizeOf(ver) - 7 - (|pos| - 1 - i) * AlignStep(ver)
  {
    hide LeastEvenStep, AlignStep;
    if ver == 32 {
      Version32();
    } else {
      StepIsLeast(ver);
    }
  }

  lemma StepIsLeast(ver: int)
    requires 2 <= ver <= 40 && ver != 32
    ensures LeastEvenStep(ver)
  {
    hide NumAlign;
    assert NumAlign(ver) >= 2 by { AtLeastTwo(ver); }
    LeastEven(4 * ver + 4, NumAlign(ver) - 1);
  }

  lemma AtLeastTwo(ver: int)
    requires ver >= 2
    ensures NumAlign(ver) >= 2
  {
  }

  lemma Version32()
    ensures AlignPositions(32) == [6, 34, 60, 86, 112, 138]
  {
    assert NumAlign(32) == 6 && AlignStep(32) == 26 && SizeOf(32) == 145;
    assert Ladder(138, 26, 5) == [34, 60, 86, 112, 138];
  }
}
