/** Square grids of modules; the module at column x and row y of `g` is g[y][x]. */
module Grids {
  type Grid = seq<seq<bool>>

  predicate Square(g: Grid, n: nat) {
    |g| == n && forall y :: 0 <= y < n ==> |g[y]| == n
  }

  /** `g` with one module changed. */
  function Put(g: Grid, n: nat, x: int, y: int, v: bool): (r: Grid)
    requires Square(g, n) && 0 <= x < n && 0 <= y < n
    ensures Square(r, n)
    ensures forall x', y' :: 0 <= x' < n && 0 <= y' < n ==>
              r[y'][x'] == if x' == x && y' == y then v else g[y'][x']
  {
    g[y := g[y][x := v]]
  }

  /** Two square grids that agree everywhere are equal. */
  lemma SameGrid(g: Grid, h: Grid, n: nat)
    requires Square(g, n) && Square(h, n)
    requires forall x, y :: 0 <= x < n && 0 <= y < n ==> g[y][x] == h[y][x]
    ensures g == h
  {
    forall y | 0 <= y < n
      ensures g[y] == h[y]
    {
    }
  }
}
