/** The eight mask patterns. */
module Masking {
  import opened Grids
  import opened Patterns

  /** Mask `msk` inverts the module at (x, y). */
  predicate Inverts(msk: int, x: nat, y: nat)
    requires ValidMask(msk)
  {
    match msk
    case 0 => (x + y) % 2 == 0
    case 1 => y % 2 == 0
    case 2 => x % 3 == 0
    case 3 => (x + y) % 3 == 0
    case 4 => (x / 3 + y / 2) % 2 == 0
    case 5 => x * y % 2 + x * y % 3 == 0
    case 6 => (x * y % 2 + x * y % 3) % 2 == 0
    case _ => ((x + y) % 2 + x * y % 3) % 2 == 0
  }

  // ----- What each mask looks like -----

  /** Mask 0: a chequered field, the corner inverted. */
  lemma Chequered(x: nat, y: nat)
    ensures Inverts(0, 0, 0)
    ensures Inverts(0, x + 1, y) != Inverts(0, x, y) && Inverts(0, x, y + 1) != Inverts(0, x, y)
  {
  }

  /** Mask 1: every other row, whatever the column. */
  lemma RowStripes(x: nat, y: nat)
    ensures Inverts(1, 0, 0)
    ensures Inverts(1, x + 1, y) == Inverts(1, x, y) && Inverts(1, x, y + 1) != Inverts(1, x, y)
  {
  }

  /** Mask 2: every third column, whatever the row. */
  lemma ColumnStripes(x: nat, y: nat)
    ensures Inverts(2, 0, 0) && !Inverts(2, 1, 0) && !Inverts(2, 2, 0)
    ensures Inverts(2, x, y + 1) == Inverts(2, x, y) && Inverts(2, x + 3, y) == Inverts(2, x, y)
  {
  }

  /** Mask 3: every third of the diagonals that rise to the right. */
  lemma Diagonals(x: nat, y: nat)
    ensures Inverts(3, 0, 0) && !Inverts(3, 1, 0) && !Inverts(3, 2, 0)
    ensures Inverts(3, x + 1, y) == Inverts(3, x, y + 1) && Inverts(3, x + 3, y) == Inverts(3, x, y)
  {
  }

  /** Mask 4: chequered tiles, three modules wide and two high. */
  lemma Tiles(a: nat, b: nat, i: nat, j: nat)
    requires i < 3 && j < 2
    ensures Inverts(4, 0, 0) && Inverts(4, 3 * a + i, 2 * b + j) == Inverts(4, 3 * a, 2 * b)
    ensures Inverts(4, 3 * a + 3, 2 * b) != Inverts(4, 3 * a, 2 * b)
    ensures Inverts(4, 3 * a, 2 * b + 2) != Inverts(4, 3 * a, 2 * b)
  {
    assert (3 * a + i) / 3 == a && 3 * a / 3 == a && (3 * a + 3) / 3 == a + 1;
    assert (2 * b + j) / 2 == b && 2 * b / 2 == b && (2 * b + 2) / 2 == b + 1;
  }

  /** Masks 5 to 7 go by the product of the coordinates. */
  lemma ProductMasks(x: nat, y: nat)
    ensures Inverts(5, x, y) <==> x * y % 6 == 0
    ensures Inverts(6, x, y) <==> x * y % 6 < 3
    ensures Inverts(7, x, y) <==> (x + y) % 2 == x * y % 3 % 2
  {
    ByRemainder(x * y);
  }

  lemma ByRemainder(p: nat)
    ensures p % 2 + p % 3 == 0 <==> p % 6 == 0
    ensures (p % 2 + p % 3) % 2 == 0 <==> p % 6 < 3
  {
    var q, r := p / 6, p % 6;
    assert p == 6 * q + r;
    SameRemainder(3 * q, r, 2);
    SameRemainder(2 * q, r, 3);
  }

  lemma SameRemainder(q: nat, r: nat, d: nat)
    requires d == 2 || d == 3
    ensures (d * q + r) % d == r % d
  {
  }

  /** `g` with every unmarked module inverted where the mask says so. */
  function Masked(g: Grid, marks: Grid, n: nat, msk: int): (r: Grid)
    requires Square(g, n) && Square(marks, n) && ValidMask(msk)
    ensures Square(r, n)
    ensures forall x, y :: 0 <= x < n && 0 <= y < n ==> r[y][x] == (g[y][x] != (Inverts(msk, x, y) && !marks[y][x]))
  {
    seq(n, y requires 0 <= y < n => seq(n, x requires 0 <= x < n => g[y][x] != (Inverts(msk, x, y) && !marks[y][x])))
  }

  /** Masking twice with the same mask changes nothing. */
  lemma MaskedTwice(g: Grid, marks: Grid, n: nat, msk: int)
    requires Square(g, n) && Square(marks, n) && ValidMask(msk)
    ensures Masked(Masked(g, marks, n, msk), marks, n, msk) == g
  {
    hide Inverts;
    SameGrid(Masked(Masked(g, marks, n, msk), marks, n, msk), g, n);
  }
}
