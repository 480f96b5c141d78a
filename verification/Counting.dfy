/** Cardinalities of sets of cells. */
module Counting {
  type Cell = (int, int)

  /** The cells with x0 <= x < x1 and y0 <= y < y1. */
  function Rect(x0: int, x1: int, y0: int, y1: int): set<Cell> {
    set x, y | x0 <= x < x1 && y0 <= y < y1 :: (x, y)
  }

  /** The cells with column in `xs` and row in `ys`. */
  function Times(xs: set<int>, ys: set<int>): set<Cell> {
    set x, y | x in xs && y in ys :: (x, y)
  }

  function Interval(lo: int, hi: int): (s: set<int>)
    ensures forall x :: x in s <==> lo <= x < hi
    decreases hi - lo
  {
    if lo < hi then Interval(lo, hi - 1) + {hi - 1} else {}
  }

  lemma {:induction false} IntervalCard(lo: int, hi: int)
    requires lo <= hi
    ensures |Interval(lo, hi)| == hi - lo
    decreases hi - lo
  {
    if lo < hi {
      IntervalCard(lo, hi - 1);
    }
  }

  lemma Pick<T>(s: set<T>) returns (x: T)
    requires s != {}
    ensures x in s
  {
    x :| x in s;
  }

  lemma {:induction false} ColumnCard(x: int, ys: set<int>)
    ensures |Times({x}, ys)| == |ys|
    decreases ys
  {
    if ys == {} {
      assert Times({x}, ys) == {};
    } else {
      var y := Pick(ys);
      ColumnCard(x, ys - {y});
      assert Times({x}, ys) == Times({x}, ys - {y}) + {(x, y)};
    }
  }

  lemma {:induction false} TimesCard(xs: set<int>, ys: set<int>)
    ensures |Times(xs, ys)| == |xs| * |ys|
    decreases xs
  {
    if xs == {} {
      assert Times(xs, ys) == {};
    } else {
      var x := Pick(xs);
      var a, b := Times(xs - {x}, ys), Times({x}, ys);
      TimesCard(xs - {x}, ys);
      ColumnCard(x, ys);
      assert Times(xs, ys) == a + b && a !! b;
      assert |xs| * |ys| == (|xs| - 1) * |ys| + |ys|;
    }
  }

  lemma RectCard(x0: int, x1: int, y0: int, y1: int)
    requires x0 <= x1 && y0 <= y1
    ensures |Rect(x0, x1, y0, y1)| == (x1 - x0) * (y1 - y0)
  {
    hide Interval;
    IntervalCard(x0, x1);
    IntervalCard(y0, y1);
    TimesCard(Interval(x0, x1), Interval(y0, y1));
    assert Rect(x0, x1, y0, y1) == Times(Interval(x0, x1), Interval(y0, y1));
  }

  lemma SubsetCard<T>(a: set<T>, b: set<T>)
    requires a <= b
    ensures |a| <= |b|
  {
    assert b == a + (b - a);
  }

  lemma RectsDisjoint(x0: int, x1: int, y0: int, y1: int, a0: int, a1: int, b0: int, b1: int)
    requires x1 <= a0 || a1 <= x0 || y1 <= b0 || b1 <= y0
    ensures Rect(x0, x1, y0, y1) !! Rect(a0, a1, b0, b1)
  {
  }

  lemma TimesDisjoint(xs: set<int>, ys: set<int>, xs': set<int>, ys': set<int>)
    requires xs !! xs' || ys !! ys'
    ensures Times(xs, ys) !! Times(xs', ys')
  {
  }
}
