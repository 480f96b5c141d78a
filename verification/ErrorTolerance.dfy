/**
 * What the check bytes are for: two different codewords of a block differ in more places than
 * there are check bytes, so a block read with at most half as many wrong bytes is still
 * closer to its own codeword than to any other.
 */
module ErrorTolerance {
  import opened Gf256
  import opened ReedSolomon

  // ----- There are no zero divisors -----

  /** The product of two odd bytes, written out. */
  function OddProduct(x: bv8, y: bv8): bv8 {
    var z7 := Gate(y, 7, x);
    var z6 := Add(Times2(z7), Gate(y, 6, x));
    var z5 := Add(Times2(z6), Gate(y, 5, x));
    var z4 := Add(Times2(z5), Gate(y, 4, x));
    var z3 := Add(Times2(z4), Gate(y, 3, x));
    var z2 := Add(Times2(z3), Gate(y, 2, x));
    var z1 := Add(Times2(z2), Gate(y, 1, x));
    Add(Times2(z1), Gate(y, 0, x))
  }

  lemma OddProductIsMul(x: bv8, y: bv8)
    ensures Mul(x, y) == OddProduct(x, y)
  {
    hide Times2, Gate, Add;
    assert Horner(x, y, 8) == 0;
    Times2Add(0, 0);
    AddLaws(Gate(y, 7, x), 0, 0);
    assert Horner(x, y, 7) == Gate(y, 7, x);
    assert Horner(x, y, 5) == Add(Times2(Horner(x, y, 6)), Gate(y, 5, x));
    assert Horner(x, y, 3) == Add(Times2(Horner(x, y, 4)), Gate(y, 3, x));
    assert Horner(x, y, 1) == Add(Times2(Horner(x, y, 2)), Gate(y, 1, x));
  }

  lemma OddProductIsNotZero(x: bv8, y: bv8)
    requires x & 1 == 1 && y & 1 == 1
    ensures OddProduct(x, y) != 0
  {
  }

  lemma HalveEven(y: bv8)
    requires y != 0 && y & 1 == 0
    ensures y == Times2(y >> 1) && y >> 1 != 0 && (y >> 1) < y
  {
  }

  lemma Times2IsNotZero(z: bv8)
    requires z != 0
    ensures Times2(z) != 0
  {
  }

  /** A product is zero only if a factor is. */
  lemma {:induction false} NoZeroDivisors(x: bv8, y: bv8)
    requires x != 0 && y != 0
    ensures Mul(x, y) != 0
    decreases x, y
  {
    hide Mul, Times2, OddProduct;
    if y & 1 == 0 {
      HalveEven(y);
      NoZeroDivisors(x, y >> 1);
      MulTimes2Right(x, y >> 1);
      Times2IsNotZero(Mul(x, y >> 1));
    } else if x & 1 == 0 {
      HalveEven(x);
      NoZeroDivisors(x >> 1, y);
      MulTimes2(x >> 1, y);
      Times2IsNotZero(Mul(x >> 1, y));
    } else {
      OddIs(x);
      OddIs(y);
      OddProductIsMul(x, y);
      OddProductIsNotZero(x, y);
    }
  }

  lemma OddIs(x: bv8)
    requires x & 1 != 0
    ensures x & 1 == 1
  {
  }

  // ----- Powers of the generator -----

  lemma PowNext(k: nat)
    ensures Pow(GENERATOR, k + 1) == Times2(Pow(GENERATOR, k))
  {
    hide Mul, Times2;
    var p := Pow(GENERATOR, k);
    assert GENERATOR == Times2(1) by { TwoIsTimes2(); }
    MulTimes2Right(p, 1);
    MulCommutes(p, 1);
    MulUnitsLeft(p);
  }

  lemma TwoIsTimes2()
    ensures Times2(1) == 2
  {
  }

  function Times16(z: bv8): bv8 {
    Times2(Times2(Times2(Times2(z))))
  }

  /** The next 4m multiples by two, starting with `z` itself, are not 1. */
  predicate Avoids(z: bv8, m: nat)
    decreases m
  {
    m == 0 || (FourAvoid(z) && Avoids(Times16(z), m - 1))
  }

  predicate FourAvoid(z: bv8) {
    z != 1 && Times2(z) != 1 && Times2(Times2(z)) != 1 && Times2(Times2(Times2(z))) != 1
  }

  lemma PowNextFour(k: nat)
    ensures Pow(GENERATOR, k + 4) == Times16(Pow(GENERATOR, k))
    ensures Pow(GENERATOR, k + 1) == Times2(Pow(GENERATOR, k))
    ensures Pow(GENERATOR, k + 2) == Times2(Times2(Pow(GENERATOR, k)))
    ensures Pow(GENERATOR, k + 3) == Times2(Times2(Times2(Pow(GENERATOR, k))))
  {
    hide Mul, Times2, Pow;
    PowNext(k);
    PowNext(k + 1);
    PowNext(k + 2);
    PowNext(k + 3);
  }

  lemma {:induction false} PowersAvoidOne(k: nat, m: nat)
    requires Avoids(Pow(GENERATOR, k), m)
    ensures forall j :: k <= j < k + 4 * m ==> Pow(GENERATOR, j) != 1
    decreases m
  {
    hide Mul, Times2, Pow, Times16;
    if m > 0 {
      PowNextFour(k);
      PowersAvoidOne(k + 4, m - 1);
      forall j | k <= j < k + 4 * m
        ensures Pow(GENERATOR, j) != 1
      {
        assert j == k || j == k + 1 || j == k + 2 || j == k + 3 || j >= k + 4;
      }
    }
  }

  /** Sixteen steps from a given power, none of them 1. */
  predicate Stride(z: bv8, next: bv8) {
    && FourAvoid(z) && FourAvoid(Times16(z)) && FourAvoid(Times16(Times16(z))) && FourAvoid(Times16(Times16(Times16(z))))
    && Times16(Times16(Times16(Times16(z)))) == next
  }

  lemma TakeStride(k: nat, z: bv8, next: bv8)
    requires Pow(GENERATOR, k) == z && Stride(z, next)
    ensures Pow(GENERATOR, k + 16) == next
    ensures forall j :: k <= j < k + 16 ==> Pow(GENERATOR, j) != 1
  {
    hide Mul, Times2, Pow, Times16, FourAvoid;
    assert Avoids(Times16(Times16(Times16(z))), 1);
    assert Avoids(Times16(z), 3);
    PowersAvoidOne(k, 4);
    PowNextFour(k);
    PowNextFour(k + 4);
    PowNextFour(k + 8);
    PowNextFour(k + 12);
  }

  lemma Strides0()
    ensures Stride(0x02, 0x98)
    ensures Stride(0x98, 0x27)
    ensures Stride(0x27, 0x8C)
  {
  }

  lemma Strides3()
    ensures Stride(0x8C, 0xBE)
    ensures Stride(0xBE, 0xE7)
    ensures Stride(0xE7, 0xAF)
  {
  }

  lemma Strides6()
    ensures Stride(0xAF, 0x1F)
    ensures Stride(0x1F, 0x17)
    ensures Stride(0x17, 0x4D)
  {
  }

  lemma Strides9()
    ensures Stride(0x4D, 0xD1)
    ensures Stride(0xD1, 0xDB)
    ensures Stride(0xDB, 0x19)
  {
  }

  lemma Strides12()
    ensures Stride(0x19, 0xA2)
    ensures Stride(0xA2, 0x24)
    ensures Stride(0x24, 0x58)
  {
  }

  /** The generator has order 255. */
  lemma GeneratorOrder()
    ensures forall j :: 0 < j < 255 ==> Pow(GENERATOR, j) != 1
    ensures Pow(GENERATOR, 255) == 1
  {
    hide Mul, Times2, Pow, Times16, FourAvoid, Stride, Avoids;
    Strides0();
    Strides3();
    Strides6();
    Strides9();
    Strides12();
    FirstPower();
    TakeStride(1, 0x02, 0x98);
    TakeStride(17, 0x98, 0x27);
    TakeStride(33, 0x27, 0x8C);
    TakeStride(49, 0x8C, 0xBE);
    TakeStride(65, 0xBE, 0xE7);
    TakeStride(81, 0xE7, 0xAF);
    TakeStride(97, 0xAF, 0x1F);
    TakeStride(113, 0x1F, 0x17);
    TakeStride(129, 0x17, 0x4D);
    TakeStride(145, 0x4D, 0xD1);
    TakeStride(161, 0xD1, 0xDB);
    TakeStride(177, 0xDB, 0x19);
    TakeStride(193, 0x19, 0xA2);
    TakeStride(209, 0xA2, 0x24);
    TakeStride(225, 0x24, 0x58);
    LastPowers();
    PowersAvoidOne(241, 3);
    PowNextFour(241);
    PowNextFour(245);
    PowNextFour(249);
    PowNextFour(253);
  }

  lemma FirstPower()
    ensures Pow(GENERATOR, 1) == 0x02
  {
    hide Mul;
    PowNext(0);
    TwoIsTimes2();
  }

  lemma LastPowers()
    ensures Avoids(0x58, 3)
    ensures var z := Times16(Times16(Times16(0x58)));
            z != 1 && Times2(z) != 1 && Times2(Times2(z)) == 1
  {
    assert Avoids(Times16(Times16(0x58)), 1);
  }

  lemma {:induction false} PowAdd(x: bv8, a: nat, b: nat)
    ensures Pow(x, a + b) == Mul(Pow(x, a), Pow(x, b))
  {
    hide Mul;
    if b == 0 {
      MulCommutes(Pow(x, a), 1);
      MulUnitsLeft(Pow(x, a));
    } else {
      PowAdd(x, a, b - 1);
      MulAssociates(Pow(x, a), Pow(x, b - 1), x);
    }
  }

  lemma {:induction false} PowPow(x: bv8, a: nat, b: nat)
    ensures Pow(Pow(x, a), b) == Pow(x, a * b)
  {
    hide Mul;
    if b > 0 {
      PowPow(x, a, b - 1);
      assert a * b == a * (b - 1) + a;
      PowAdd(x, a * (b - 1), a);
    }
  }

  lemma PowSwap(x: bv8, a: nat, b: nat)
    ensures Pow(Pow(x, a), b) == Pow(Pow(x, b), a)
  {
    hide Mul, Pow;
    PowPow(x, a, b);
    PowPow(x, b, a);
    assert a * b == b * a;
  }

  lemma {:induction false} PowIsNotZero(k: nat)
    ensures Pow(GENERATOR, k) != 0
  {
    hide Mul;
    if k > 0 {
      PowIsNotZero(k - 1);
      NoZeroDivisors(Pow(GENERATOR, k - 1), GENERATOR);
    }
  }

  /** The first 255 powers of the generator are distinct. */
  lemma PowersDiffer(i: nat, j: nat)
    requires i < j < 255
    ensures Pow(GENERATOR, i) != Pow(GENERATOR, j)
  {
    hide Mul, Pow, Add;
    var p, q := Pow(GENERATOR, i), Pow(GENERATOR, j - i);
    GeneratorOrder();
    PowIsNotZero(i);
    PowAdd(GENERATOR, i, j - i);
    AddLaws(q, 1, 0);
    NoZeroDivisors(p, Add(q, 1));
    MulDistributes(p, q, 1);
    MulCommutes(p, 1);
    MulUnitsLeft(p);
    AddLaws(p, p, 0);
  }

  // ----- Codewords as power sums -----

  /** The point that belongs to place `t` of a word of length `n`. */
  function Point(n: nat, t: nat): bv8
    requires t < n
  {
    Pow(GENERATOR, n - 1 - t)
  }

  /** The sum of d[t] * p(point t) over the first `i` places. */
  function Terms(d: Poly, p: Poly, i: nat): bv8
    requires i <= |d|
  {
    if i == 0 then 0 else Add(Terms(d, p, i - 1), Mul(d[i - 1], Eval(p, Point(|d|, i - 1))))
  }

  function PowerSum(d: Poly, m: nat, i: nat): bv8
    requires i <= |d|
  {
    if i == 0 then 0 else Add(PowerSum(d, m, i - 1), Mul(d[i - 1], Pow(Point(|d|, i - 1), m)))
  }

  lemma {:induction false} EvalPrefix(d: Poly, m: nat, i: nat)
    requires i <= |d|
    ensures Mul(Eval(d[..i], Pow(GENERATOR, m)), Pow(Pow(GENERATOR, m), |d| - i)) == PowerSum(d, m, i)
  {
    hide Mul, Add, Pow;
    var a, n := Pow(GENERATOR, m), |d|;
    if i == 0 {
      MulUnitsLeft(Pow(a, n));
    } else {
      var e, w := Eval(d[..i - 1], a), Pow(a, n - i);
      EvalPrefix(d, m, i - 1);
      assert d[..i][..i - 1] == d[..i - 1];
      assert Eval(d[..i], a) == Add(Mul(e, a), d[i - 1]);
      MulAddLeft(Mul(e, a), d[i - 1], w);
      MulAssociates(e, a, w);
      MulCommutes(a, w);
      PowUnfold(a, n - i);
      PowSwap(GENERATOR, m, n - i);
    }
  }

  lemma PowUnfold(a: bv8, k: nat)
    ensures Pow(a, k + 1) == Mul(Pow(a, k), a) && Pow(a, 0) == 1
  {
    hide Mul;
  }

  /** The value at r^m is the m-th power sum. */
  lemma EvalIsPowerSum(d: Poly, m: nat)
    ensures Eval(d, Pow(GENERATOR, m)) == PowerSum(d, m, |d|)
  {
    hide Mul, Add, Pow;
    var a := Pow(GENERATOR, m);
    EvalPrefix(d, m, |d|);
    assert d[..|d|] == d;
    PowUnfold(a, 0);
    MulCommutes(Eval(d, a), 1);
    MulUnitsLeft(Eval(d, a));
  }

  lemma {:induction false} EvalFront(c: bv8, p: Poly, a: bv8)
    ensures Eval([c] + p, a) == Add(Mul(c, Pow(a, |p|)), Eval(p, a))
  {
    hide Mul, Add;
    if p == [] {
      assert ([c] + p)[..0] == [];
      MulUnitsLeft(a);
      MulCommutes(c, 1);
      MulUnitsLeft(c);
      AddLaws(c, 0, 0);
    } else {
      var k := |p| - 1;
      var q := p[..k];
      EvalFront(c, q, a);
      assert ([c] + p)[..k + 1] == [c] + q;
      MulAddLeft(Mul(c, Pow(a, k)), Eval(q, a), a);
      MulAssociates(c, Pow(a, k), a);
      AddLaws(Mul(c, Pow(a, k + 1)), Mul(Eval(q, a), a), p[k]);
    }
  }

  lemma {:induction false} TermsFront(d: Poly, c: bv8, p: Poly, i: nat)
    requires i <= |d|
    ensures Terms(d, [c] + p, i) == Add(Mul(c, PowerSum(d, |p|, i)), Terms(d, p, i))
  {
    hide Mul, Add, Pow, Eval, Point;
    if i == 0 {
      MulCommutes(c, 0);
      MulUnitsLeft(c);
      AddLaws(0, 0, 0);
    } else {
      var x, v := Point(|d|, i - 1), d[i - 1];
      var w := Pow(x, |p|);
      TermsFront(d, c, p, i - 1);
      EvalFront(c, p, x);
      MulDistributes(v, Mul(c, w), Eval(p, x));
      MulAssociates(v, c, w);
      MulCommutes(v, c);
      MulAssociates(c, v, w);
      AddSwap(Mul(c, PowerSum(d, |p|, i - 1)), Terms(d, p, i - 1), Mul(c, Mul(v, w)), Mul(v, Eval(p, x)));
      MulDistributes(c, PowerSum(d, |p|, i - 1), Mul(v, w));
    }
  }

  lemma {:induction false} TermsOfNothing(d: Poly, i: nat)
    requires i <= |d|
    ensures Terms(d, [], i) == 0
  {
    hide Mul, Add, Pow;
    if i > 0 {
      TermsOfNothing(d, i - 1);
      MulCommutes(d[i - 1], 0);
      MulUnitsLeft(d[i - 1]);
      AddLaws(0, 0, 0);
    }
  }

  /** Against a codeword, every polynomial of low degree sums to zero. */
  lemma {:induction false} CodewordKillsLowDegree(d: Poly, n: nat, p: Poly)
    requires IsCodeword(d, n) && |p| <= n
    ensures Terms(d, p, |d|) == 0
  {
    hide Mul, Add, Pow, Eval, Terms, PowerSum;
    if p == [] {
      TermsOfNothing(d, |d|);
    } else {
      var c, q := p[0], p[1..];
      assert p == [c] + q;
      CodewordKillsLowDegree(d, n, q);
      TermsFront(d, c, q, |d|);
      EvalIsPowerSum(d, |q|);
      assert Eval(d, Pow(GENERATOR, |q|)) == 0;
      MulCommutes(c, 0);
      MulUnitsLeft(c);
      AddLaws(0, 0, 0);
    }
  }

  // ----- The locator of the other nonzero places -----

  /** How many of the first `i` bytes are not zero. */
  function Weight(d: Poly, i: nat): nat
    requires i <= |d|
  {
    if i == 0 then 0 else Weight(d, i - 1) + (if d[i - 1] != 0 then 1 else 0)
  }

  /** Vanishes at the points of all nonzero places before `i` but `j`. */
  function Locator(d: Poly, j: nat, i: nat): (p: Poly)
    requires i <= |d|
  {
    if i == 0 then [1]
    else if i - 1 == j || d[i - 1] == 0 then Locator(d, j, i - 1)
    else Product(Locator(d, j, i - 1), [1, Point(|d|, i - 1)])
  }

  lemma {:induction false} LocatorDegree(d: Poly, j: nat, i: nat)
    requires i <= |d| && j < |d| && d[j] != 0
    ensures |Locator(d, j, i)| == Weight(d, i) + (if j < i then 0 else 1)
  {
    hide Point, Product;
    if i > 0 {
      LocatorDegree(d, j, i - 1);
    }
  }

  lemma LocatorStep(d: Poly, j: nat, i: nat, z: bv8)
    requires i < |d| && i != j && d[i] != 0
    ensures Eval(Locator(d, j, i + 1), z) == Mul(Eval(Locator(d, j, i), z), Add(z, Point(|d|, i)))
  {
    hide Mul, Add, Point, Eval, Product;
    EvalProduct(Locator(d, j, i), [1, Point(|d|, i)], z);
    EvalLinear(Point(|d|, i), z);
  }

  lemma {:induction false} LocatorVanishes(d: Poly, j: nat, i: nat, t: nat)
    requires t < i <= |d| && t != j && d[t] != 0
    ensures Eval(Locator(d, j, i), Point(|d|, t)) == 0
  {
    hide Mul, Add, Point, Eval;
    var z := Point(|d|, t);
    if i - 1 != j && d[i - 1] != 0 {
      LocatorStep(d, j, i - 1, z);
      var e := Eval(Locator(d, j, i - 1), z);
      if t == i - 1 {
        AddLaws(z, z, 0);
        MulCommutes(e, 0);
        MulUnitsLeft(e);
      } else {
        LocatorVanishes(d, j, i - 1, t);
        MulUnitsLeft(Add(z, Point(|d|, i - 1)));
      }
    } else {
      LocatorVanishes(d, j, i - 1, t);
    }
  }

  lemma {:induction false} LocatorKeeps(d: Poly, j: nat, i: nat)
    requires i <= |d| <= 255 && j < |d|
    ensures Eval(Locator(d, j, i), Point(|d|, j)) != 0
  {
    hide Mul, Add, Pow;
    var z := Point(|d|, j);
    if i == 0 {
      assert [1][..0] == [];
      assert Eval([1], z) == Add(Mul(0, z), 1);
      MulUnitsLeft(z);
      AddLaws(1, 0, 0);
    } else {
      LocatorKeeps(d, j, i - 1);
      if i - 1 != j && d[i - 1] != 0 {
        var w := Point(|d|, i - 1);
        LocatorStep(d, j, i - 1, z);
        if i - 1 < j {
          PowersDiffer(|d| - 1 - j, |d| - i);
        } else {
          PowersDiffer(|d| - i, |d| - 1 - j);
        }
        AddLaws(z, w, 0);
        NoZeroDivisors(Eval(Locator(d, j, i - 1), z), Add(z, w));
      }
    }
  }

  lemma {:induction false} OneTermLeft(d: Poly, j: nat, i: nat)
    requires i <= |d| && j < |d|
    ensures var p := Locator(d, j, |d|);
            Terms(d, p, i) == if j < i then Mul(d[j], Eval(p, Point(|d|, j))) else 0
  {
    hide Mul, Add, Point, Eval, Locator;
    var p := Locator(d, j, |d|);
    if i > 0 {
      OneTermLeft(d, j, i - 1);
      var e := Eval(p, Point(|d|, i - 1));
      var before := Terms(d, p, i - 1);
      if i - 1 != j {
        if d[i - 1] != 0 {
          LocatorVanishes(d, j, |d|, i - 1);
          MulCommutes(d[i - 1], 0);
          MulUnitsLeft(d[i - 1]);
        } else {
          MulUnitsLeft(e);
        }
        AddLaws(before, 0, 0);
      } else {
        AddLaws(Mul(d[j], e), 0, 0);
      }
    }
  }

  // ----- Minimum distance -----

  /** A codeword that is not all zero has more nonzero bytes than there are check bytes. */
  lemma CodewordWeight(d: Poly, n: nat, j: nat)
    requires IsCodeword(d, n) && |d| <= 255 && j < |d| && d[j] != 0
    ensures Weight(d, |d|) > n
  {
    hide Mul, Add, Point, Eval, Locator, Terms, Weight, IsCodeword;
    if Weight(d, |d|) <= n {
      var p := Locator(d, j, |d|);
      LocatorDegree(d, j, |d|);
      CodewordKillsLowDegree(d, n, p);
      OneTermLeft(d, j, |d|);
      LocatorKeeps(d, j, |d|);
      NoZeroDivisors(d[j], Eval(p, Point(|d|, j)));
    }
  }

  /** In how many of the first `i` places two words differ. */
  function Differences(a: Poly, b: Poly, i: nat): nat
    requires i <= |a| && i <= |b|
  {
    if i == 0 then 0 else Differences(a, b, i - 1) + (if a[i - 1] != b[i - 1] then 1 else 0)
  }

  lemma {:induction false} DifferencesAreWeight(a: Poly, b: Poly, i: nat)
    requires i <= |a| == |b|
    ensures Weight(Sum(a, b), i) == Differences(a, b, i)
  {
    if i > 0 {
      DifferencesAreWeight(a, b, i - 1);
    }
  }

  /** Distinct codewords of at most 255 bytes differ in more places than there are check bytes. */
  lemma MinimumDistance(a: Poly, b: Poly, n: nat)
    requires IsCodeword(a, n) && IsCodeword(b, n) && |a| == |b| <= 255 && a != b
    ensures Differences(a, b, |a|) > n
  {
    hide Mul, Pow, Eval, Weight, Differences;
    var d := Sum(a, b);
    forall k: nat | k < n
      ensures Eval(d, Pow(GENERATOR, k)) == 0
    {
      EvalSum(a, b, Pow(GENERATOR, k));
    }
    var j :| 0 <= j < |a| && a[j] != b[j];
    assert d[j] != 0;
    CodewordWeight(d, n, j);
    DifferencesAreWeight(a, b, |a|);
  }

  lemma {:induction false} Triangle(w: Poly, a: Poly, b: Poly, i: nat)
    requires i <= |w| == |a| == |b|
    ensures Differences(a, b, i) <= Differences(w, a, i) + Differences(w, b, i)
  {
    if i > 0 {
      Triangle(w, a, b, i - 1);
    }
  }

  /** A word within half the number of check bytes of a codeword is that close to no other. */
  lemma UniqueNearestCodeword(w: Poly, a: Poly, b: Poly, n: nat)
    requires IsCodeword(a, n) && IsCodeword(b, n) && |w| == |a| == |b| <= 255
    requires 2 * Differences(w, a, |w|) <= n && 2 * Differences(w, b, |w|) <= n
    ensures a == b
  {
    hide Differences, IsCodeword;
    if a != b {
      Triangle(w, a, b, |w|);
      MinimumDistance(a, b, n);
    }
  }
}
