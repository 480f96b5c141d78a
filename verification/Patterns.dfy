/**
 * The function patterns of a symbol, cell by cell: which modules they occupy and what
 * colour each of them has.
 */
module Patterns {
  import opened Capacity
  import opened Segments

  function SizeOf(ver: int): (n: nat)
    requires ValidVersion(ver)
    ensures 21 <= n <= 177 && n % 4 == 1
  {
    4 * ver + 17
  }

  predicate InGrid(n: nat, x: int, y: int) {
    0 <= x < n && 0 <= y < n
  }

  function Abs(a: int): nat {
    if a < 0 then -a else a
  }

  /** Chebyshev distance. */
  function Distance(x: int, y: int, cx: int, cy: int): nat {
    var dx, dy := Abs(x - cx), Abs(y - cy);
    if dx > dy then dx else dy
  }

  // ----- Timing -----

  predicate TimingCell(x: int, y: int) {
    x == 6 || y == 6
  }

  predicate TimingColour(x: int, y: int) {
    if x == 6 then y % 2 == 0 else x % 2 == 0
  }

  // ----- Finders -----

  predicate FinderCell(n: nat, x: int, y: int) {
    Distance(x, y, 3, 3) <= 4 || Distance(x, y, n - 4, 3) <= 4 || Distance(x, y, 3, n - 4) <= 4
  }

  predicate FinderShade(d: nat) {
    d != 2 && d != 4
  }

  predicate FinderColour(n: nat, x: int, y: int) {
    if Distance(x, y, 3, n - 4) <= 4 then FinderShade(Distance(x, y, 3, n - 4))
    else if Distance(x, y, n - 4, 3) <= 4 then FinderShade(Distance(x, y, n - 4, 3))
    else FinderShade(Distance(x, y, 3, 3))
  }

  // ----- Alignment patterns -----

  function NumAlign(ver: int): int {
    ver / 7 + 2
  }

  function AlignStep(ver: int): int
    requires 2 <= ver
  {
    if ver == 32 then 26
    else (ver * 4 + NumAlign(ver) * 2 + 1) / (NumAlign(ver) * 2 - 2) * 2
  }

  /** `count` positions `step` apart, ending at `top`. */
  function Ladder(top: int, step: int, count: nat): (s: seq<int>)
    ensures |s| == count
  {
    seq(count, i => top - (count - 1 - i) * step)
  }

  function AlignPositions(ver: int): seq<int>
    requires ValidVersion(ver)
  {
    if ver == 1 then [] else [6] + Ladder(SizeOf(ver) - 7, AlignStep(ver), NumAlign(ver) - 1)
  }

  predicate WideGap(ver: int)
    requires 2 <= ver
  {
    && 2 <= NumAlign(ver) <= 7 && AlignStep(ver) >= 12
    && 4 * ver + 10 - (NumAlign(ver) - 2) * AlignStep(ver) >= 18
  }

  lemma AlignGap(ver: int)
    requires 2 <= ver <= 40
    ensures WideGap(ver)
  {
    hide WideGap;
    if ver < 7 {
      AlignGap2(ver);
    } else if ver < 14 {
      AlignGap3(ver);
    } else if ver < 21 {
      AlignGap4(ver);
    } else if ver < 28 {
      AlignGap5(ver);
    } else if ver < 35 {
      AlignGap6(ver);
    } else {
      AlignGap7(ver);
    }
  }

  lemma AlignGap2(ver: int)
    requires 2 <= ver <= 6
    ensures WideGap(ver)
  {
    assert NumAlign(ver) == 2;
    assert AlignStep(ver) == (ver * 4 + 5) / 2 * 2;
  }

  lemma AlignGap3(ver: int)
    requires 7 <= ver <= 13
    ensures WideGap(ver)
  {
    assert NumAlign(ver) == 3;
    assert AlignStep(ver) == (ver * 4 + 7) / 4 * 2;
  }

  lemma AlignGap4(ver: int)
    requires 14 <= ver <= 20
    ensures WideGap(ver)
  {
    assert NumAlign(ver) == 4;
    assert AlignStep(ver) == (ver * 4 + 9) / 6 * 2;
  }

  lemma AlignGap5(ver: int)
    requires 21 <= ver <= 27
    ensures WideGap(ver)
  {
    assert NumAlign(ver) == 5;
    assert AlignStep(ver) == (ver * 4 + 11) / 8 * 2;
  }

  lemma AlignGap6(ver: int)
    requires 28 <= ver <= 34
    ensures WideGap(ver)
  {
    assert NumAlign(ver) == 6;
    assert ver != 32 ==> AlignStep(ver) == (ver * 4 + 13) / 10 * 2;
  }

  lemma AlignGap7(ver: int)
    requires 35 <= ver <= 40
    ensures WideGap(ver)
  {
    assert NumAlign(ver) == 7;
    assert AlignStep(ver) == (ver * 4 + 15) / 12 * 2;
  }

  /** Centres lie at least 12 apart, from 6 to size - 7. */
  predicate Spaced(pos: seq<int>, n: nat) {
    && |pos| >= 2 && pos[0] == 6 && pos[|pos| - 1] == n - 7
    && forall i, j :: 0 <= i < j < |pos| ==> pos[i] + 12 <= pos[j]
  }

  lemma AlignSpacing(ver: int)
    requires 2 <= ver <= 40
    ensures Spaced(AlignPositions(ver), SizeOf(ver))
    ensures |AlignPositions(ver)| == NumAlign(ver)
  {
    hide AlignStep, NumAlign, Ladder, Spaced;
    AlignGap(ver);
    LadderSpaced(SizeOf(ver), AlignStep(ver), NumAlign(ver) - 1);
  }

  lemma LadderSpaced(n: nat, step: int, count: nat)
    requires count >= 1 && step >= 12 && n - 7 - (count - 1) * step >= 18
    ensures Spaced([6] + Ladder(n - 7, step, count), n)
  {
    var p := [6] + Ladder(n - 7, step, count);
    forall i, j | 0 <= i < j < |p|
      ensures p[i] + 12 <= p[j]
    {
      LadderGap(n - 7, step, count, 0, j - 1);
      if i > 0 {
        LadderGap(n - 7, step, count, i - 1, j - 1);
      }
    }
  }

  lemma LadderGap(top: int, step: int, count: nat, i: nat, j: nat)
    requires step >= 12 && i <= j < count
    ensures Ladder(top, step, count)[j] >= Ladder(top, step, count)[i] + (if i < j then 12 else 0)
    ensures Ladder(top, step, count)[0] == top - (count - 1) * step
  {
    assert (count - 1 - i) * step == (count - 1 - j) * step + (j - i) * step;
    if i < j {
      assert (j - i) * step == (j - i - 1) * step + step;
    }
  }

  /** The index of the centre within two of `x`, or -1. */
  function Near(pos: seq<int>, x: int): (i: int)
    ensures -1 <= i < |pos|
    ensures i >= 0 ==> Abs(x - pos[i]) <= 2
    ensures i == -1 ==> forall k :: 0 <= k < |pos| ==> Abs(x - pos[k]) > 2
  {
    if pos == [] then -1
    else
      var m := |pos| - 1;
      if Abs(x - pos[m]) <= 2 then m else Near(pos[..m], x)
  }

  /** There is never a second one. */
  lemma NearIs(pos: seq<int>, n: nat, x: int, i: nat)
    requires Spaced(pos, n) && i < |pos| && Abs(x - pos[i]) <= 2
    ensures Near(pos, x) == i
  {
  }

  /** The three places taken by finders. */
  predicate Corner(i: int, j: int, a: int) {
    (i == 0 && j == 0) || (i == 0 && j == a - 1) || (i == a - 1 && j == 0)
  }

  predicate AlignmentCell(pos: seq<int>, x: int, y: int) {
    var i, j := Near(pos, x), Near(pos, y);
    i >= 0 && j >= 0 && !Corner(i, j, |pos|)
  }

  predicate AlignmentColour(pos: seq<int>, x: int, y: int)
    requires AlignmentCell(pos, x, y)
  {
    Distance(x, y, pos[Near(pos, x)], pos[Near(pos, y)]) != 1
  }

  // ----- Format information -----

  function FormatLevel(ecl: Ecc): bv16 {
    match ecl
    case Low => 1
    case Medium => 0
    case Quartile => 3
    case High => 2
  }

  predicate ValidMask(msk: int) {
    0 <= msk <= 7
  }

  /** Level and mask in five bits. */
  function FormatData(ecl: Ecc, msk: int): (d: bv16)
    requires ValidMask(msk)
    ensures d < 32
  {
    (FormatLevel(ecl) << 3) | (if msk == 0 then 0 else if msk == 1 then 1 else if msk == 2 then 2 else if msk == 3 then 3
     else if msk == 4 then 4 else if msk == 5 then 5 else if msk == 6 then 6 else 7)
  }

  function FormatRemStep(rem: bv16): bv16 {
    (rem << 1) ^ ((rem >> 9) * 0x537)
  }

  function FormatRem(data: bv16, i: nat): (r: bv16)
    requires data < 32
    ensures r < 1024
  {
    if i == 0 then data else
      FormatRemBound(FormatRem(data, i - 1));
      FormatRemStep(FormatRem(data, i - 1))
  }

  lemma FormatRemBound(rem: bv16)
    requires rem < 1024
    ensures FormatRemStep(rem) < 1024
  {
  }

  /** Data and check bits, whitened. */
  function FormatJoin(data: bv16, rem: bv16): bv16 {
    ((data << 10) | rem) ^ 0x5412
  }

  /** The fifteen format bits. */
  function FormatWord(ecl: Ecc, msk: int): bv16
    requires ValidMask(msk)
  {
    var data := FormatData(ecl, msk);
    FormatJoin(data, FormatRem(data, 10))
  }

  function WordBit(w: bv16, i: nat): bool
    requires i < 16
  {
    (w >> i) & 1 != 0
  }

  predicate FormatCell(n: nat, x: int, y: int) {
    || (x == 8 && (0 <= y <= 5 || y == 7 || y == 8 || n - 8 <= y < n))
    || (y == 8 && (0 <= x <= 5 || x == 7 || n - 8 <= x < n))
  }

  predicate FormatColour(n: nat, w: bv16, x: int, y: int)
    requires n >= 21 && FormatCell(n, x, y)
  {
    if x == 8 then
      if y <= 5 then WordBit(w, y)
      else if y <= 8 then WordBit(w, y - 1)
      else y == n - 8 || WordBit(w, y - (n - 15))
    else
      if x <= 5 then WordBit(w, 14 - x)
      else if x == 7 then WordBit(w, 8)
      else WordBit(w, n - 1 - x)
  }

  /** The turn at which a format module is drawn. */
  function FormatTurn(n: nat, x: int, y: int): int
    requires FormatCell(n, x, y)
  {
    if x == 8 then
      if y <= 5 then y else if y <= 8 then y - 1 else if y == n - 8 then 30 else 15 + y - (n - 15)
    else
      if x <= 5 then 14 - x else if x == 7 then 8 else 15 + n - 1 - x
  }

  // ----- Version information -----

  function VersionRemStep(rem: bv32): bv32 {
    (rem << 1) ^ ((rem >> 11) * 0x1F25)
  }

  function VersionRem(data: bv32, i: nat): (r: bv32)
    requires data < 64
    ensures r < 4096
  {
    if i == 0 then data else
      VersionRemBound(VersionRem(data, i - 1));
      VersionRemStep(VersionRem(data, i - 1))
  }

  lemma VersionRemBound(rem: bv32)
    requires rem < 4096
    ensures VersionRemStep(rem) < 4096
  {
  }

  function VersionJoin(data: bv32, rem: bv32): bv32 {
    (data << 12) | rem
  }

  /** The eighteen version bits. */
  function VersionWord(ver: bv32): (w: bv32)
    requires ver < 64
  {
    VersionJoin(ver, VersionRem(ver, 12))
  }

  function LongBit(w: bv32, i: nat): bool
    requires i < 32
  {
    (w >> i) & 1 != 0
  }

  predicate VersionCell(ver: int, n: nat, x: int, y: int) {
    ver >= 7 && ((n - 11 <= x <= n - 9 && 0 <= y <= 5) || (n - 11 <= y <= n - 9 && 0 <= x <= 5))
  }

  /** The bit a version module shows. */
  function VersionIndex(n: nat, x: int, y: int): int {
    if x > y then 3 * y + x - (n - 11) else 3 * x + y - (n - 11)
  }

  predicate VersionColour(n: nat, w: bv32, x: int, y: int)
    requires n >= 21 && VersionCell(7, n, x, y)
  {
    LongBit(w, VersionIndex(n, x, y))
  }

  // ----- All of them -----

  predicate FunctionCell(ver: int, x: int, y: int)
    requires ValidVersion(ver)
  {
    var n := SizeOf(ver);
    || TimingCell(x, y) || FinderCell(n, x, y) || AlignmentCell(AlignPositions(ver), x, y)
    || FormatCell(n, x, y) || VersionCell(ver, n, x, y)
  }

  predicate FunctionColour(ver: int, word: bv16, x: int, y: int)
    requires ValidVersion(ver)
  {
    var n := SizeOf(ver);
    if FormatCell(n, x, y) then FormatColour(n, word, x, y)
    else if VersionCell(ver, n, x, y) then VersionColour(n, VersionWord(ver as bv32), x, y)
    else if AlignmentCell(AlignPositions(ver), x, y) then AlignmentColour(AlignPositions(ver), x, y)
    else if FinderCell(n, x, y) then FinderColour(n, x, y)
    else TimingColour(x, y)
  }
}
