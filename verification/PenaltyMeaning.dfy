/** What the penalty counts, in terms of the cells of a line. */
module PenaltyMeaning {
  import opened Basics
  import opened Counting
  import opened Grids
  import opened Penalty

  // ----- Finder-like patterns -----

  /** One dark, one light, three dark, one light and one dark, all `n` times as wide. */
  function Core(n: nat): Line {
    Solid(true, n) + Solid(false, n) + Solid(true, 3 * n) + Solid(false, n) + Solid(true, n)
  }

  /** On which side the light border is at least four wide; on the other it is at least one wide. */
  datatype Side = Left | Right

  datatype Place = Place(start: nat, width: nat, side: Side)

  /** The line literally reads border, core, border at the place. */
  predicate ReadsPattern(s: Line, p: Place) {
    var n := p.width;
    var before, after := if p.side == Left then 4 * n else n, if p.side == Left then n else 4 * n;
    && n >= 1 && before <= p.start && p.start + 7 * n + after <= |s|
    && s[p.start - before..p.start] == Solid(false, before)
    && s[p.start..p.start + 7 * n] == Core(n)
    && s[p.start + 7 * n..p.start + 7 * n + after] == Solid(false, after)
  }

  /** The places of all finder-like patterns of a line. */
  function Patterns(s: Line): set<Place> {
    set start, n, side | 0 <= start <= |s| && 0 <= n <= |s| && side in {Left, Right} && ReadsPattern(s, Place(start, n, side))
      :: Place(start, n, side)
  }

  lemma PatternsAre(s: Line, p: Place)
    ensures p in Patterns(s) <==> ReadsPattern(s, p)
  {
    if ReadsPattern(s, p) {
      assert p == Place(p.start, p.width, p.side) && p.start <= |s| && p.width <= |s|;
    }
  }

  // ----- Taking runs off the end of a line -----

  predicate Runs(l: seq<nat>, s: Line) {
    Positive(l) && Expand(l) == s
  }

  lemma LastRun(l: seq<nat>)
    requires Positive(l) && l != []
    ensures Expand(l) == Expand(l[..|l| - 1]) + Solid(|l| % 2 == 0, l[|l| - 1])
    ensures var e := Expand(l[..|l| - 1]); e == [] || e[|e| - 1] != (|l| % 2 == 0)
  {
    hide Expand, Solid;
    var m := |l| - 1;
    var front, k := l[..m], l[m];
    assert l == front + [k];
    TailRun(front, k, |l| % 2 == 0);
  }

  lemma TailRun(front: seq<nat>, k: nat, dark: bool)
    requires Positive(front) && dark == (|front| % 2 == 1)
    ensures Expand(front + [k]) == Expand(front) + Solid(dark, k)
    ensures var e := Expand(front); e == [] || e[|e| - 1] != dark
  {
    hide Expand, Solid, Positive;
    ExpandStep(front, k);
    Ends(front);
  }

  lemma Ends(l: seq<nat>)
    requires Positive(l)
    ensures var e := Expand(l); e == [] || e[|e| - 1] == (|l| % 2 == 0)
  {
    hide RunsOf, Lengths, Expand;
    RunsOfExpand(l);
    if l == [] {
      NothingExpands();
    }
  }

  lemma NothingExpands()
    ensures Expand([]) == []
  {
  }

  /** Two ways to split off a last run of one colour are the same way. */
  lemma SameTail(front: Line, n: nat, e: Line, k: nat, colour: bool)
    requires front + Solid(colour, n) == e + Solid(colour, k) && n >= 1 && k >= 1
    requires front == [] || front[|front| - 1] != colour
    requires e == [] || e[|e| - 1] != colour
    ensures n == k && front == e
  {
    LongerTail(front, n, e, k, colour);
    LongerTail(e, k, front, n, colour);
    var s := front + Solid(colour, n);
    assert front == s[..|front|] && e == s[..|e|];
  }

  /** A last run is at least as long as any tail of its colour. */
  lemma LongerTail(front: Line, n: nat, e: Line, k: nat, colour: bool)
    requires front + Solid(colour, n) == e + Solid(colour, k)
    requires e == [] || e[|e| - 1] != colour
    ensures k >= n
  {
    var s := front + Solid(colour, n);
    assert forall i :: |front| <= i < |s| ==> s[i] == colour;
    assert e != [] ==> s[|e| - 1] == e[|e| - 1];
  }

  /** A line that ends with exactly `n` cells of a colour has a last run of that length and colour. */
  lemma Peel(l: seq<nat>, front: Line, colour: bool, n: nat)
    requires Runs(l, front + Solid(colour, n)) && n >= 1 && (front == [] || front[|front| - 1] != colour)
    ensures l != [] && l[|l| - 1] == n && colour == (|l| % 2 == 0)
    ensures Runs(l[..|l| - 1], front)
  {
    AtLeast(l, front, colour, n);
    hide Expand;
    LastRun(l);
    SameTail(front, n, Expand(l[..|l| - 1]), l[|l| - 1], colour);
  }

  /** A line that ends with `n` cells of a colour has a last run at least that long. */
  lemma AtLeast(l: seq<nat>, front: Line, colour: bool, n: nat)
    requires Runs(l, front + Solid(colour, n)) && n >= 1
    ensures l != [] && l[|l| - 1] >= n && colour == (|l| % 2 == 0)
  {
    var s := front + Solid(colour, n);
    assert |s| >= 1 && s[|s| - 1] == colour;
    assert l != [];
    LastRun(l);
    assert s[|s| - 1] == (|l| % 2 == 0);
    LongerTail(front, n, Expand(l[..|l| - 1]), l[|l| - 1], colour);
  }

  /** The last five runs are those of a core. */
  predicate HasCore(l: seq<nat>, n: nat) {
    var t := |l|;
    n > 0 && t >= 5 && l[t - 1] == n && l[t - 2] == n && l[t - 3] == 3 * n && l[t - 4] == n && l[t - 5] == n
  }

  lemma CorePeeled(l: seq<nat>, front: Line, n: nat)
    requires Runs(l, front + Core(n)) && n >= 1 && front != [] && !front[|front| - 1]
    ensures HasCore(l, n) && Runs(l[..|l| - 5], front)
  {
    hide Runs;
    var a := front + Solid(true, n);
    var b := a + Solid(false, n);
    var c := b + Solid(true, 3 * n);
    var d := c + Solid(false, n);
    assert front + Core(n) == d + Solid(true, n);
    var t := |l|;
    Peel(l, d, true, n);
    Peel(l[..t - 1], c, false, n);
    assert l[..t - 1][..t - 2] == l[..t - 2];
    Peel(l[..t - 2], b, true, 3 * n);
    assert l[..t - 2][..t - 3] == l[..t - 3];
    Peel(l[..t - 3], a, false, n);
    assert l[..t - 3][..t - 4] == l[..t - 4];
    Peel(l[..t - 4], front, true, n);
    assert l[..t - 4][..t - 5] == l[..t - 5];
  }

  lemma CoreExpanded(l: seq<nat>, n: nat)
    requires HasCore(l, n) && |l| % 2 == 0
    ensures Expand(l) == Expand(l[..|l| - 5]) + Core(n)
  {
    hide Expand, Core, Solid;
    var t := |l|;
    assert l[..t] == l;
    LastExpanded(l, t, true, n);
    LastExpanded(l, t - 1, false, n);
    LastExpanded(l, t - 2, true, 3 * n);
    LastExpanded(l, t - 3, false, n);
    LastExpanded(l, t - 4, true, n);
    CoreJoined(Expand(l[..t - 5]), n);
  }

  lemma CoreJoined(front: Line, n: nat)
    ensures front + Solid(true, n) + Solid(false, n) + Solid(true, 3 * n) + Solid(false, n) + Solid(true, n) == front + Core(n)
  {
    var a, b, c := Solid(true, n), Solid(false, n), Solid(true, 3 * n);
    assert front + a + b + c + b + a == front + (a + b + c + b + a);
  }

  lemma LastExpanded(l: seq<nat>, i: nat, dark: bool, k: nat)
    requires 0 < i <= |l| && dark == (i % 2 == 0) && k == l[i - 1]
    ensures Expand(l[..i]) == Expand(l[..i - 1]) + Solid(dark, k)
  {
    assert l[..i] == l[..i - 1] + [l[i - 1]];
    ExpandStep(l[..i - 1], l[i - 1]);
  }

  // ----- One more run -----

  /** A dark run at the end adds no pattern. */
  lemma DarkAddsNone(s: Line, k: nat)
    ensures Patterns(s + Solid(true, k)) == Patterns(s)
  {
    var s' := s + Solid(true, k);
    forall p ensures p in Patterns(s') <==> p in Patterns(s) {
      PatternsAre(s', p);
      PatternsAre(s, p);
      if ReadsPattern(s, p) {
        ReadsLonger(s, Solid(true, k), p);
      }
      if ReadsPattern(s', p) {
        LightAfter(s', p);
        assert !s'[p.start + 7 * p.width + (if p.side == Left then p.width else 4 * p.width) - 1];
        ReadsShorter(s, Solid(true, k), p);
      }
    }
  }

  /** A core ends dark, and its border behind is light. */
  lemma LightAfter(s: Line, p: Place)
    requires ReadsPattern(s, p)
    ensures var end := p.start + 7 * p.width; var after := if p.side == Left then p.width else 4 * p.width;
            p.width >= 1 && s[end - 1] && end + after <= |s| && forall i :: end <= i < end + after ==> !s[i]
  {
    var n := p.width;
    var end := p.start + 7 * n;
    var after := if p.side == Left then n else 4 * n;
    assert s[end - 1] == s[p.start..end][7 * n - 1] == Core(n)[7 * n - 1];
    forall i | end <= i < end + after ensures !s[i] {
      assert s[i] == s[end..end + after][i - end];
    }
  }

  lemma ReadsLonger(s: Line, more: Line, p: Place)
    requires ReadsPattern(s, p)
    ensures ReadsPattern(s + more, p)
  {
    hide Core;
    var n := p.width;
    var before, after := if p.side == Left then 4 * n else n, if p.side == Left then n else 4 * n;
    var s' := s + more;
    assert s'[p.start - before..p.start] == s[p.start - before..p.start];
    assert s'[p.start..p.start + 7 * n] == s[p.start..p.start + 7 * n];
    assert s'[p.start + 7 * n..p.start + 7 * n + after] == s[p.start + 7 * n..p.start + 7 * n + after];
  }

  lemma ReadsShorter(s: Line, more: Line, p: Place)
    requires ReadsPattern(s + more, p)
    requires p.start + 7 * p.width + (if p.side == Left then p.width else 4 * p.width) <= |s|
    ensures ReadsPattern(s, p)
  {
    hide Core;
    var n := p.width;
    var before, after := if p.side == Left then 4 * n else n, if p.side == Left then n else 4 * n;
    var s' := s + more;
    assert s'[p.start - before..p.start] == s[p.start - before..p.start];
    assert s'[p.start..p.start + 7 * n] == s[p.start..p.start + 7 * n];
    assert s'[p.start + 7 * n..p.start + 7 * n + after] == s[p.start + 7 * n..p.start + 7 * n + after];
  }

  /** A pattern that a light run completes has its core right before that run. */
  lemma LightCompletes(s: Line, k: nat, p: Place)
    requires (s == [] || s[|s| - 1]) && ReadsPattern(s + Solid(false, k), p) && !ReadsPattern(s, p)
    ensures p.start + 7 * p.width == |s|
  {
    hide ReadsPattern;
    LightAfter(s + Solid(false, k), p);
    assert s == [] || (s + Solid(false, k))[|s| - 1];
    if p.start + 7 * p.width + (if p.side == Left then p.width else 4 * p.width) <= |s| {
      ReadsShorter(s, Solid(false, k), p);
    }
  }

  /** Exactly when there is a pattern whose core ends the line and whose border is a light run of `k`. */
  lemma CompletedIff(l: seq<nat>, k: nat, p: Place)
    requires Positive(l) && |l| % 2 == 0 && p.start + 7 * p.width == |Expand(l)|
    ensures var n := p.width; var t := |l|;
            ReadsPattern(Expand(l) + Solid(false, k), p)
            <==> HasCore(l, n) && t >= 6 && l[t - 6] >= (if p.side == Left then 4 * n else n)
                 && k >= (if p.side == Left then n else 4 * n)
  {
    if ReadsPattern(Expand(l) + Solid(false, k), p) {
      CompletedHasRuns(l, k, p);
    }
    var n, t := p.width, |l|;
    if HasCore(l, n) && t >= 6 && l[t - 6] >= (if p.side == Left then 4 * n else n) && k >= (if p.side == Left then n else 4 * n) {
      RunsComplete(l, k, p);
    }
  }

  lemma CompletedHasRuns(l: seq<nat>, k: nat, p: Place)
    requires Positive(l) && p.start + 7 * p.width == |Expand(l)| && ReadsPattern(Expand(l) + Solid(false, k), p)
    ensures var n := p.width; var t := |l|;
            && HasCore(l, n) && t >= 6 && l[t - 6] >= (if p.side == Left then 4 * n else n)
            && k >= (if p.side == Left then n else 4 * n)
  {
    hide Expand, Core;
    var n, s := p.width, Expand(l);
    var s' := s + Solid(false, k);
    var before := if p.side == Left then 4 * n else n;
    var front := s[..p.start];
    assert s'[p.start..p.start + 7 * n] == s[p.start..];
    assert s == front + Core(n);
    assert front == front[..p.start - before] + Solid(false, before) by {
      assert s'[p.start - before..p.start] == front[p.start - before..];
    }
    CorePeeled(l, front, n);
    AtLeast(l[..|l| - 5], front[..p.start - before], false, before);
  }

  lemma RunsComplete(l: seq<nat>, k: nat, p: Place)
    requires Positive(l) && |l| % 2 == 0 && p.start + 7 * p.width == |Expand(l)|
    requires var n := p.width; var t := |l|;
             && HasCore(l, n) && t >= 6 && l[t - 6] >= (if p.side == Left then 4 * n else n)
             && k >= (if p.side == Left then n else 4 * n)
    ensures ReadsPattern(Expand(l) + Solid(false, k), p)
  {
    hide Expand, Core;
    var n, t, s := p.width, |l|, Expand(l);
    var s' := s + Solid(false, k);
    var before, after := if p.side == Left then 4 * n else n, if p.side == Left then n else 4 * n;
    CoreExpanded(l, n);
    CoreLength(n);
    LastExpanded(l, t - 5, false, l[t - 6]);
    var front := Expand(l[..t - 5]);
    assert |front| == p.start && front == Expand(l[..t - 6]) + Solid(false, l[t - 6]);
    assert front[p.start - before..] == Solid(false, before);
    assert s' == front + Core(n) + Solid(false, k);
    assert s'[p.start - before..p.start] == front[p.start - before..];
    assert s'[p.start..p.start + 7 * n] == Core(n);
    assert s'[|s|..|s| + after] == Solid(false, after);
  }

  lemma CoreLength(n: nat)
    ensures |Core(n)| == 7 * n
  {
  }

  /** The patterns that a light run of `k` completes. */
  function Completed(l: seq<nat>, k: nat): set<Place> {
    var t := |l|;
    if t < 6 || !HasCore(l, l[t - 1]) || |Expand(l)| < 7 * l[t - 1] then {}
    else
      var n := l[t - 1];
      var start := |Expand(l)| - 7 * n;
      (if k >= 4 * n && l[t - 6] >= n then {Place(start, n, Right)} else {})
      + (if l[t - 6] >= 4 * n && k >= n then {Place(start, n, Left)} else {})
  }

  lemma CompletedCard(l: seq<nat>, k: nat)
    requires Positive(l) && |l| % 2 == 0
    ensures |Completed(l, k)| == PatternsAt(l + [k], |l|)
  {
    hide Expand, Core;
    var t := |l|;
    if t >= 6 && HasCore(l, l[t - 1]) {
      CoreExpanded(l, l[t - 1]);
      CoreLength(l[t - 1]);
    }
  }

  lemma CompletedAre(l: seq<nat>, k: nat, p: Place)
    requires Positive(l) && |l| % 2 == 0
    ensures p in Completed(l, k) <==> p.start + 7 * p.width == |Expand(l)| && ReadsPattern(Expand(l) + Solid(false, k), p)
  {
    hide Expand, Core, ReadsPattern;
    if p.start + 7 * p.width == |Expand(l)| {
      CompletedIff(l, k, p);
    }
  }

  lemma LightAdds(l: seq<nat>, k: nat)
    requires Positive(l) && |l| % 2 == 0
    ensures |Patterns(Expand(l) + Solid(false, k))| == |Patterns(Expand(l))| + PatternsAt(l + [k], |l|)
  {
    hide Core, PatternsAt;
    var s := Expand(l);
    var s' := s + Solid(false, k);
    var added := Completed(l, k);
    CompletedCard(l, k);
    RunsOfExpand(l);
    hide Expand, RunsOf, Completed, ReadsPattern, Patterns;
    forall p ensures (p in Patterns(s') <==> p in Patterns(s) + added) && !(p in Patterns(s) && p in added) {
      PatternsAre(s', p);
      PatternsAre(s, p);
      CompletedAre(l, k, p);
      if ReadsPattern(s, p) {
        ReadsLonger(s, Solid(false, k), p);
        ReadsInside(s, p);
      } else if ReadsPattern(s', p) {
        LightCompletes(s, k, p);
      }
    }
    assert Patterns(s') == Patterns(s) + added && Patterns(s) !! added;
  }

  lemma ReadsInside(s: Line, p: Place)
    requires ReadsPattern(s, p)
    ensures p.start + 7 * p.width < |s|
  {
  }

  /** The patterns found along the run lengths are the places where the line reads a pattern. */
  lemma {:induction false} PatternCountIs(l: seq<nat>)
    requires Positive(l)
    ensures PatternCount(l) == |Patterns(Expand(l))|
  {
    hide PatternsAt, Patterns;
    if l == [] {
      NoPatterns();
    } else {
      var m := |l| - 1;
      var front := l[..m];
      PatternCountIs(front);
      assert l == front + [l[m]];
      ExpandStep(front, l[m]);
      if m % 2 == 0 {
        LightAdds(front, l[m]);
      } else {
        DarkAddsNone(Expand(front), l[m]);
      }
    }
  }

  lemma NoPatterns()
    ensures Patterns([]) == {}
  {
    forall p ensures p !in Patterns([]) {
      PatternsAre([], p);
    }
  }

  // ----- Long runs -----

  /** The five cells from `i` on have one colour. */
  predicate FiveAlike(s: Line, i: nat) {
    i + 5 <= |s| && s[i] == s[i + 1] == s[i + 2] == s[i + 3] == s[i + 4]
  }

  function Fives(s: Line): set<nat> {
    set i | 0 <= i < |s| && FiveAlike(s, i)
  }

  /** Those with which a run begins. */
  function FirstFives(s: Line): set<nat> {
    set i | 0 <= i < |s| && FiveAlike(s, i) && (i == 0 || s[i - 1] != s[i])
  }

  /** The last run of a line ends with it and begins after a cell of the other colour. */
  lemma {:induction false} LastRunIs(s: Line)
    requires s != []
    ensures var r := RunsOf(s); var k := r[|r| - 1].length;
            && 1 <= k <= |s| && (forall i :: |s| - k <= i < |s| ==> s[i] == s[|s| - 1])
            && (k < |s| ==> s[|s| - k - 1] != s[|s| - 1])
  {
    if |s| > 1 {
      LastRunIs(s[..|s| - 1]);
    } else {
      assert s[..0] == [];
      assert RunsOf(s) == Extend(RunsOf([]), s[0]);
    }
  }

  /** One more cell makes one more five exactly if the last run is then five long or more, a first one if just five. */
  lemma OneMoreCell(s: Line, colour: bool)
    ensures var s' := s + [colour]; var r := RunsOf(s'); var k := r[|r| - 1].length;
            && Fives(s') == Fives(s) + (if k >= 5 then {|s| - 4} else {})
            && FirstFives(s') == FirstFives(s) + (if k == 5 then {|s| - 4} else {})
  {
    var s' := s + [colour];
    LastRunIs(s');
    hide RunsOf;
    var r := RunsOf(s');
    var k := r[|r| - 1].length;
    assert forall i :: 0 <= i < |s| ==> s'[i] == s[i];
    assert forall i: nat :: i + 5 <= |s| ==> (FiveAlike(s', i) <==> FiveAlike(s, i));
    if |s| >= 4 {
      assert FiveAlike(s', |s| - 4) <==> k >= 5;
      assert k > 5 ==> s'[|s| - 5] == s'[|s| - 4];
      assert k == 5 && |s| > 4 ==> s'[|s| - 5] != s'[|s| - 4];
    }
  }

  lemma CostGrows(r: seq<Run>, colour: bool)
    ensures var r' := Extend(r, colour); var k := r'[|r'| - 1].length;
            RunCosts(r') == RunCosts(r) + (if k == 5 then 3 else if k > 5 then 1 else 0)
  {
    if r != [] && r[|r| - 1].colour == colour {
      var m := |r| - 1;
      var r' := Extend(r, colour);
      assert r'[..m] == r[..m];
    } else {
      var r' := Extend(r, colour);
      assert r'[..|r|] == r;
    }
  }

  /** Long runs cost 3 for the first five cells alike and 1 for every further one. */
  lemma {:induction false} RunCostsAre(s: Line)
    ensures RunCosts(RunsOf(s)) == |Fives(s)| + 2 * |FirstFives(s)|
  {
    if s != [] {
      var m := |s| - 1;
      RunCostsAre(s[..m]);
      assert s == s[..m] + [s[m]];
      OneMoreCell(s[..m], s[m]);
      CostGrows(RunsOf(s[..m]), s[m]);
    }
  }

  // ----- The score of a line -----

  /** The penalty of a line, in cells: 1 for every five alike, 2 more for the first of a run, 40 for every pattern. */
  lemma LineScoreMeans(line: Line)
    ensures LineScore(line) == |Fives(line)| + 2 * |FirstFives(line)| + 40 * |Patterns(Bordered(line))|
  {
    hide RunsOf, RunCosts, PatternCount, Patterns, Expand;
    var s := Bordered(line);
    RunCostsAre(line);
    RunsReassemble(s);
    PatternCountIs(Lengths(RunsOf(s)));
  }

  // ----- The weights, on a grid where everything shows -----

  function WhiteGrid(n: nat): (g: Grid)
    ensures Square(g, n) && forall x, y :: 0 <= x < n && 0 <= y < n ==> !g[y][x]
  {
    seq(n, _ => Solid(false, n))
  }

  lemma OneRun(n: nat)
    requires n >= 5
    ensures RunCosts([Run(false, n)]) == n - 2 && PatternCount([n]) == 0 && Lengths([Run(false, n)]) == [n]
  {
    assert [Run(false, n)][..0] == [];
    assert [n][..0] == [];
    assert RunCosts([]) == 0 && PatternCount([]) == 0;
  }

  lemma WhiteLine(n: nat)
    requires n >= 5
    ensures LineScore(Solid(false, n)) == n - 2
  {
    hide RunsOf, RunCosts, PatternCount, Lengths;
    var line := Solid(false, n);
    NoRunsYet();
    RunsAppend([], false, n);
    RunsAppend([], false, 3 * n);
    assert [] + line == line;
    assert Bordered(line) == [] + Solid(false, 3 * n);
    assert RunsOf(line) == [Run(false, n)] && RunsOf(Bordered(line)) == [Run(false, 3 * n)];
    OneRun(n);
    OneRun(3 * n);
  }

  lemma NoRunsYet()
    ensures RunsOf([]) == []
  {
  }

  lemma {:induction false} WhiteLines(n: nat, k: nat)
    requires n >= 5 && k <= n
    ensures RowScores(WhiteGrid(n), n, k) == ColumnScores(WhiteGrid(n), n, k) == k * (n - 2)
  {
    hide LineScore;
    if k > 0 {
      WhiteLines(n, k - 1);
      WhiteLine(n);
      assert WhiteGrid(n)[k - 1] == Solid(false, n);
      assert Column(WhiteGrid(n), n, k - 1) == Solid(false, n);
      assert (k - 1) * (n - 2) + (n - 2) == k * (n - 2);
    }
  }

  lemma WhiteCounts(n: nat)
    requires n >= 1
    ensures |Blocks(WhiteGrid(n), n)| == (n - 1) * (n - 1) && |Blacks(WhiteGrid(n), n)| == 0
  {
    var g := WhiteGrid(n);
    RectCard(0, n - 1, 0, n - 1);
    assert Blocks(g, n) == Rect(0, n - 1, 0, n - 1);
    assert Blacks(g, n) == {};
  }

  lemma NineSteps(total: nat)
    requires total > 0
    ensures BalanceSteps(0, total) == 9
  {
    TenTimes(total);
  }

  lemma TenTimes(total: nat)
    requires total > 0
    ensures (10 * total + total - 1) / total == 10
  {
    var q := (10 * total + total - 1) / total;
    assert q * total <= 11 * total - 1 < q * total + total;
    CancelFactor(q, 11, total);
    assert q * total + total == (q + 1) * total;
    CancelFactor(10, q + 1, total);
  }

  /** A white grid: every line is one run, every square of four is uniform, and nothing is black. */
  lemma WhiteGridScore(n: nat)
    requires n >= 5
    ensures Score(WhiteGrid(n), n) == 2 * n * (n - 2) + 3 * (n - 1) * (n - 1) + 90
  {
    hide RowScores, ColumnScores, Blocks, Blacks, BalanceSteps, WhiteGrid;
    WhiteLines(n, n);
    WhiteCounts(n);
    assert n * n > 0;
    NineSteps(n * n);
    assert 2 * (n * (n - 2)) == 2 * n * (n - 2);
    assert 3 * ((n - 1) * (n - 1)) == 3 * (n - 1) * (n - 1);
  }
}
