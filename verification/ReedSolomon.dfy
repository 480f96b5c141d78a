/**
 * Polynomials over GF(2^8) and the two Reed-Solomon loops of QrCode. A polynomial is the
 * sequence of its coefficients from the highest power to the lowest.
 */
module ReedSolomon {
  import opened Basics
  import opened Gf256
  import opened Results

  type Poly = seq<bv8>

  function Zeros(n: nat): (p: Poly)
    ensures |p| == n && forall i :: 0 <= i < n ==> p[i] == 0
  {
    seq(n, _ => 0)
  }

  function Scale(c: bv8, p: Poly): (r: Poly)
    ensures |r| == |p| && forall i :: 0 <= i < |p| ==> r[i] == Mul(c, p[i])
  {
    seq(|p|, i requires 0 <= i < |p| => Mul(c, p[i]))
  }

  function Sum(p: Poly, q: Poly): (r: Poly)
    requires |p| == |q|
    ensures |r| == |p| && forall i :: 0 <= i < |p| ==> r[i] == Add(p[i], q[i])
  {
    seq(|p|, i requires 0 <= i < |p| => Add(p[i], q[i]))
  }

  /** Schoolbook product: the sum of the shifted multiples of `g`. */
  function Product(q: Poly, g: Poly): (r: Poly)
    requires |g| > 0
    ensures |r| == |q| + |g| - 1
  {
    if q == [] then Zeros(|g| - 1) else
      var m := |q| - 1;
      Sum(Product(q[..m], g) + [0], Zeros(m) + Scale(q[m], g))
  }

  /** The value of `p` at `a`. */
  function Eval(p: Poly, a: bv8): bv8 {
    if p == [] then 0 else Add(Mul(Eval(p[..|p| - 1], a), a), p[|p| - 1])
  }

  /** (x - r^0)(x - r^1)...(x - r^(n-1)), with its leading coefficient. */
  function Generator(n: nat): (p: Poly)
    ensures |p| == n + 1
  {
    if n == 0 then [1] else Product(Generator(n - 1), [1, Pow(GENERATOR, n - 1)])
  }

  // ----- Laws of products and values -----

  lemma {:induction false} EvalSum(p: Poly, q: Poly, a: bv8)
    requires |p| == |q|
    ensures Eval(Sum(p, q), a) == Add(Eval(p, a), Eval(q, a))
  {
    hide Mul, Add;
    if p == [] {
      AddLaws(0, 0, 0);
    } else {
      var m := |p| - 1;
      assert Sum(p, q)[..m] == Sum(p[..m], q[..m]);
      EvalSum(p[..m], q[..m], a);
      MulAddLeft(Eval(p[..m], a), Eval(q[..m], a), a);
      AddSwap(Mul(Eval(p[..m], a), a), Mul(Eval(q[..m], a), a), p[m], q[m]);
    }
  }

  lemma {:induction false} EvalScale(c: bv8, p: Poly, a: bv8)
    ensures Eval(Scale(c, p), a) == Mul(c, Eval(p, a))
  {
    hide Mul, Add;
    if p == [] {
      MulUnitsLeft(c);
      MulCommutes(c, 0);
    } else {
      var m := |p| - 1;
      assert Scale(c, p)[..m] == Scale(c, p[..m]);
      EvalScale(c, p[..m], a);
      MulAssociates(c, Eval(p[..m], a), a);
      MulDistributes(c, Mul(Eval(p[..m], a), a), p[m]);
    }
  }

  lemma {:induction false} EvalLeadingZeros(m: nat, p: Poly, a: bv8)
    ensures Eval(Zeros(m) + p, a) == Eval(p, a)
  {
    hide Mul, Add;
    if p != [] {
      var k := |p| - 1;
      assert (Zeros(m) + p)[..m + k] == Zeros(m) + p[..k];
      EvalLeadingZeros(m, p[..k], a);
    } else if m > 0 {
      assert (Zeros(m) + p)[..m - 1] == Zeros(m - 1) + p;
      EvalLeadingZeros(m - 1, p, a);
      MulUnitsLeft(a);
      AddLaws(0, 0, 0);
    }
  }

  /** Evaluation is a ring homomorphism. */
  lemma {:induction false} EvalProduct(q: Poly, g: Poly, a: bv8)
    requires |g| > 0
    ensures Eval(Product(q, g), a) == Mul(Eval(q, a), Eval(g, a))
  {
    hide Mul, Add;
    if q == [] {
      assert Zeros(|g| - 1) == Zeros(|g| - 1) + [];
      EvalLeadingZeros(|g| - 1, [], a);
      MulUnitsLeft(Eval(g, a));
    } else {
      var m := |q| - 1;
      var p := Product(q[..m], g) + [0];
      var s := Zeros(m) + Scale(q[m], g);
      EvalSum(p, s, a);
      EvalProduct(q[..m], g, a);
      assert p[..|p| - 1] == Product(q[..m], g);
      AddLaws(Mul(Eval(Product(q[..m], g), a), a), 0, 0);
      EvalLeadingZeros(m, Scale(q[m], g), a);
      EvalScale(q[m], g, a);
      var e, v := Eval(q[..m], a), Eval(g, a);
      calc {
        Eval(Product(q, g), a);
        Add(Mul(Mul(e, v), a), Mul(q[m], v));
        { MulAssociates(e, v, a); MulCommutes(v, a); MulAssociates(e, a, v); }
        Add(Mul(Mul(e, a), v), Mul(q[m], v));
        { MulAddLeft(Mul(e, a), q[m], v); }
        Mul(Eval(q, a), v);
      }
    }
  }

  /** Multiplying by x - a: the coefficients, one by one. */
  lemma {:induction false} LinearProduct(p: Poly, a: bv8, j: nat)
    requires j <= |p|
    ensures Product(p, [1, a])[j] ==
            Add(if j < |p| then p[j] else 0, if j > 0 then Mul(p[j - 1], a) else 0)
  {
    hide Mul, Add;
    AddLaws(0, 0, 0);
    if p != [] {
      var m := |p| - 1;
      if j <= m {
        LinearProduct(p[..m], a, j);
      }
      var t := if j > 0 then Mul(p[j - 1], a) else 0;
      MulUnitsLeft(p[m]);
      MulCommutes(p[m], 1);
      AddLaws(t, p[m], 0);
      AddLaws(Product(p, [1, a])[j], 0, 0);
      assert j < m ==> Product(p, [1, a])[j] == Add(Product(p[..m], [1, a])[j], 0);
      AddLaws(if j <= m then Product(p[..m], [1, a])[j] else 0, 0, 0);
    }
  }

  // ----- The divisor -----

  /** The generator polynomial takes at every point the product of the distances to its roots. */
  function RootProduct(n: nat, z: bv8): bv8 {
    if n == 0 then 1 else Mul(RootProduct(n - 1, z), Add(z, Pow(GENERATOR, n - 1)))
  }

  lemma EvalLinear(a: bv8, z: bv8)
    ensures Eval([1, a], z) == Add(z, a)
  {
    hide Mul, Add;
    assert [1, a][..1] == [1] && [1][..0] == [];
    assert Eval([1], z) == Add(Mul(0, z), 1);
    MulUnitsLeft(z);
    AddLaws(1, 0, 0);
  }

  lemma {:induction false} GeneratorValue(n: nat, z: bv8)
    ensures Eval(Generator(n), z) == RootProduct(n, z)
  {
    hide Mul, Add;
    if n == 0 {
      assert [1][..0] == [];
      assert Eval([1], z) == Add(Mul(0, z), 1);
      MulUnitsLeft(z);
      AddLaws(1, 0, 0);
    } else {
      GeneratorValue(n - 1, z);
      EvalProduct(Generator(n - 1), [1, Pow(GENERATOR, n - 1)], z);
      EvalLinear(Pow(GENERATOR, n - 1), z);
    }
  }

  lemma {:induction false} RootProductVanishes(n: nat, k: nat)
    requires k < n
    ensures RootProduct(n, Pow(GENERATOR, k)) == 0
  {
    hide Mul, Add, Pow;
    var z := Pow(GENERATOR, k);
    if k == n - 1 {
      AddLaws(z, z, 0);
      MulCommutes(RootProduct(n - 1, z), 0);
      MulUnitsLeft(RootProduct(n - 1, z));
    } else {
      RootProductVanishes(n - 1, k);
      MulUnitsLeft(Add(z, Pow(GENERATOR, n - 1)));
    }
  }

  lemma GeneratorIsMonic(n: nat)
    ensures Generator(n)[0] == 1
  {
    hide Mul, Add;
    if n > 0 {
      GeneratorIsMonic(n - 1);
      LinearProduct(Generator(n - 1), Pow(GENERATOR, n - 1), 0);
      AddLaws(1, 0, 0);
    }
  }

  /** The last `degree` coefficients of the first `i` factors, padded on the left with zeros. */
  function Window(degree: nat, i: nat): (w: Poly)
    requires i <= degree
    ensures |w| == degree
  {
    (Zeros(degree) + Generator(i))[i + 1..]
  }

  /** Coefficient `k` of (x - a)w when everything above |w| coefficients is dropped. */
  function TimesLinear(w: Poly, a: bv8, k: nat): bv8
    requires k < |w|
  {
    if k + 1 < |w| then Add(Mul(w[k], a), w[k + 1]) else Mul(w[k], a)
  }

  /** One round of the loop on the padded window is one more factor. */
  lemma WindowStep(degree: nat, i: nat, k: nat)
    requires i < degree && k < degree
    ensures Window(degree, i + 1)[k] == TimesLinear(Window(degree, i), Pow(GENERATOR, i), k)
  {
    hide Mul, Add, Pow, Generator;
    var a, g := Pow(GENERATOR, i), Generator(i);
    assert Generator(i + 1) == Product(g, [1, a]) by { NextGenerator(i); }
    MulUnitsLeft(a);
    AddLaws(0, 0, 0);
    if i + 2 + k >= degree {
      var j := i + 2 + k - degree;
      assert Window(degree, i + 1)[k] == Product(g, [1, a])[j];
      LinearProduct(g, a, j);
      var hi, lo := if j <= i then g[j] else 0, if j > 0 then Mul(g[j - 1], a) else 0;
      AddLaws(hi, lo, 0);
      AddLaws(lo, 0, 0);
    }
  }

  lemma NextGenerator(i: nat)
    ensures Generator(i + 1) == Product(Generator(i), [1, Pow(GENERATOR, i)])
  {
  }

  lemma NextWindow(degree: nat, i: nat, next: Poly)
    requires i < degree && |next| == degree
    requires forall k :: 0 <= k < degree ==> next[k] == TimesLinear(Window(degree, i), Pow(GENERATOR, i), k)
    ensures next == Window(degree, i + 1)
  {
    hide TimesLinear, Window, Pow;
    forall k | 0 <= k < degree
      ensures next[k] == Window(degree, i + 1)[k]
    {
      WindowStep(degree, i, k);
    }
  }

  /** The inner loop: each coefficient is overwritten while its right neighbour is still old. */
  method TimesLinearInPlace(result: array<bv8>, root: bv8)
    modifies result
    ensures forall k :: 0 <= k < result.Length ==> result[k] == TimesLinear(old(result[..]), root, k)
  {
    hide Mul, Add;
    for j := 0 to result.Length
      invariant forall k :: j <= k < result.Length ==> result[k] == old(result[k])
      invariant forall k :: 0 <= k < j ==> result[k] == TimesLinear(old(result[..]), root, k)
    {
      var t := Multiply(result[j], root);
      if j + 1 < result.Length {
        t := Add(t, result[j + 1]);
      }
      result[j] := t;
    }
  }

  /** The in-place product loop returns the generator polynomial without its leading 1. */
  method ComputeDivisor(degree: int) returns (r: Result<Poly>)
    ensures r.Ok? <==> 1 <= degree <= 255
    ensures r.Ok? ==> [1] + r.value == Generator(degree)
    ensures r.Err? ==> r.error == DomainError
  {
    hide Mul, Add, Pow, Window, Generator, TimesLinear, Zeros;
    if degree < 1 || degree > 255 {
      return Err(DomainError);
    }
    var result := new bv8[degree](_ => 0);
    result[degree - 1] := 1;
    var root: bv8 := 1;
    DivisorStart(degree);
    assert result[..] == Zeros(degree - 1) + [1];
    for i := 0 to degree
      invariant root == Pow(GENERATOR, i)
      invariant result[..] == Window(degree, i)
    {
      TimesLinearInPlace(result, root);
      NextWindow(degree, i, result[..]);
      root := Multiply(root, 0x02);
      PowStep(i);
    }
    DivisorEnd(degree);
    r := Ok(result[..]);
  }

  lemma DivisorStart(degree: nat)
    requires degree > 0
    ensures Window(degree, 0) == Zeros(degree - 1) + [1]
    ensures Pow(GENERATOR, 0) == 1
  {
  }

  lemma DivisorEnd(degree: nat)
    ensures [1] + Window(degree, degree) == Generator(degree)
  {
    GeneratorIsMonic(degree);
    assert Window(degree, degree) == Generator(degree)[1..];
  }

  lemma PowStep(i: nat)
    ensures Pow(GENERATOR, i + 1) == Mul(Pow(GENERATOR, i), 0x02)
  {
    hide Mul;
  }

  // ----- The remainder -----

  /** The register after it has taken in `b`: shifted left, minus a multiple of the divisor. */
  function Shifted(rem: Poly, divisor: Poly, b: bv8): (r: Poly)
    requires |rem| == |divisor| > 0
    ensures |r| == |divisor|
  {
    seq(|divisor|, i requires 0 <= i < |divisor| =>
      Add(if i + 1 < |rem| then rem[i + 1] else 0, Mul(divisor[i], Add(b, rem[0]))))
  }

  /** The register after a whole message. */
  function Remainder(data: Poly, divisor: Poly): (r: Poly)
    requires |divisor| > 0
    ensures |r| == |divisor|
  {
    if data == [] then Zeros(|divisor|) else
      var m := |data| - 1;
      Shifted(Remainder(data[..m], divisor), divisor, data[m])
  }

  /** The factors by which the divisor was subtracted. */
  function Quotient(data: Poly, divisor: Poly): (q: Poly)
    requires |divisor| > 0
    ensures |q| == |data|
  {
    if data == [] then [] else
      var m := |data| - 1;
      Quotient(data[..m], divisor) + [Add(data[m], Remainder(data[..m], divisor)[0])]
  }

  method ComputeRemainder(data: Poly, divisor: Poly) returns (result: Poly)
    requires |divisor| > 0
    ensures result == Remainder(data, divisor)
  {
    hide Mul, Add, Shifted;
    result := Zeros(|divisor|);
    for d := 0 to |data|
      invariant result == Remainder(data[..d], divisor)
    {
      var factor := Add(data[d], result[0]);
      ghost var before := result;
      result := result[1..] + [0];
      ghost var erased := result;
      for i := 0 to |result|
        invariant |result| == |divisor|
        invariant forall k :: i <= k < |divisor| ==> result[k] == erased[k]
        invariant forall k :: 0 <= k < i ==> result[k] == Add(erased[k], Mul(divisor[k], factor))
      {
        var t := Multiply(divisor[i], factor);
        result := result[i := Add(result[i], t)];
      }
      ShiftedIs(before, divisor, data[d], result);
      assert data[..d + 1][..d] == data[..d];
    }
    assert data[..|data|] == data;
  }

  lemma ShiftedIs(rem: Poly, divisor: Poly, b: bv8, next: Poly)
    requires |rem| == |divisor| == |next| > 0
    requires forall k :: 0 <= k < |divisor| ==>
               next[k] == Add((rem[1..] + [0])[k], Mul(divisor[k], Add(b, rem[0])))
    ensures next == Shifted(rem, divisor, b)
  {
    hide Mul, Add;
  }

  /** data * x^n == quotient * divisor + remainder, coefficient by coefficient. */
  lemma {:induction false} DivisionIdentity(data: Poly, divisor: Poly)
    requires |divisor| > 0
    ensures Sum(Product(Quotient(data, divisor), [1] + divisor), Zeros(|data|) + Remainder(data, divisor))
         == data + Zeros(|divisor|)
  {
    hide Mul, Add, Shifted;
    AddLaws(0, 0, 0);
    if data != [] {
      var m := |data| - 1;
      var q, rem := Quotient(data[..m], divisor), Remainder(data[..m], divisor);
      var f := Add(data[m], rem[0]);
      DivisionIdentity(data[..m], divisor);
      assert (q + [f])[..m] == q;
      DivisionStep(Product(q, [1] + divisor), rem, data[..m], divisor, data[m]);
      assert data[..m] + [data[m]] == data;
    }
  }

  /** One more message byte: the new multiple of the divisor cancels the top of the register. */
  lemma DivisionStep(p: Poly, rem: Poly, done: Poly, divisor: Poly, b: bv8)
    requires |divisor| == |rem| > 0 && |p| == |done| + |divisor|
    requires Sum(p, Zeros(|done|) + rem) == done + Zeros(|divisor|)
    ensures Sum(Sum(p + [0], Zeros(|done|) + Scale(Add(b, rem[0]), [1] + divisor)),
                Zeros(|done| + 1) + Shifted(rem, divisor, b))
         == done + [b] + Zeros(|divisor|)
  {
    hide Mul, Add, Shifted;
    var m, n, f := |done|, |divisor|, Add(b, rem[0]);
    forall k | 0 <= k < m + 1 + n
      ensures Add(Add((p + [0])[k], (Zeros(m) + Scale(f, [1] + divisor))[k]), (Zeros(m + 1) + Shifted(rem, divisor, b))[k])
           == (done + [b] + Zeros(n))[k]
    {
      if k < m {
        assert Sum(p, Zeros(m) + rem)[k] == Add(p[k], 0);
        AddLaws(p[k], 0, 0);
      } else if k == m {
        assert Sum(p, Zeros(m) + rem)[k] == Add(p[m], rem[0]);
        DivisionTop(p[m], rem[0], b);
      } else {
        var i := k - m - 1;
        assert i + 1 < n ==> Sum(p, Zeros(m) + rem)[k] == Add(p[k], rem[i + 1]);
        DivisionLow((p + [0])[k], rem, divisor, b, i);
      }
    }
  }

  lemma DivisionTop(p: bv8, r: bv8, b: bv8)
    requires Add(p, r) == 0
    ensures Add(Add(p, Mul(Add(b, r), 1)), 0) == b
  {
    hide Mul;
    MulCommutes(Add(b, r), 1);
    MulUnitsLeft(Add(b, r));
  }

  lemma DivisionLow(p: bv8, rem: Poly, divisor: Poly, b: bv8, i: nat)
    requires |rem| == |divisor| > i
    requires if i + 1 < |rem| then Add(p, rem[i + 1]) == 0 else p == 0
    ensures Add(Add(p, Mul(Add(b, rem[0]), divisor[i])), Shifted(rem, divisor, b)[i]) == 0
  {
    hide Mul, Add;
    var r := if i + 1 < |rem| then rem[i + 1] else 0;
    AddLaws(p, r, 0);
    MulCommutes(Add(b, rem[0]), divisor[i]);
    AddLaws(Shifted(rem, divisor, b)[i], 0, 0);
  }

  // ----- Uniqueness of the division -----

  lemma {:induction false} ProductSum(q: Poly, q': Poly, g: Poly)
    requires |q| == |q'| && |g| > 0
    ensures Product(Sum(q, q'), g) == Sum(Product(q, g), Product(q', g))
  {
    hide Mul, Add;
    AddLaws(0, 0, 0);
    if q != [] {
      var m := |q| - 1;
      var s := Sum(q, q');
      assert s[..m] == Sum(q[..m], q'[..m]);
      ProductSum(q[..m], q'[..m], g);
      RowSum(Product(q[..m], g), Product(q'[..m], g), g, q[m], q'[m], m);
    }
  }

  lemma RowSum(p: Poly, p': Poly, g: Poly, c: bv8, c': bv8, m: nat)
    requires |p| == |p'| && |p| + 1 == m + |g|
    ensures Sum(Sum(p, p') + [0], Zeros(m) + Scale(Add(c, c'), g))
         == Sum(Sum(p + [0], Zeros(m) + Scale(c, g)), Sum(p' + [0], Zeros(m) + Scale(c', g)))
  {
    hide Mul, Add;
    AddLaws(0, 0, 0);
    forall k | 0 <= k < m + |g|
      ensures Add((Sum(p, p') + [0])[k], (Zeros(m) + Scale(Add(c, c'), g))[k])
           == Add(Add((p + [0])[k], (Zeros(m) + Scale(c, g))[k]), Add((p' + [0])[k], (Zeros(m) + Scale(c', g))[k]))
    {
      if k >= m {
        MulAddLeft(c, c', g[k - m]);
      }
      AddSwap((p + [0])[k], (p' + [0])[k], (Zeros(m) + Scale(c, g))[k], (Zeros(m) + Scale(c', g))[k]);
    }
  }

  /** Above a monic divisor the first nonzero coefficient of the quotient shows through. */
  lemma {:induction false} ProductTop(q: Poly, g: Poly, i: nat)
    requires |g| > 0 && g[0] == 1 && i < |q|
    requires forall k :: 0 <= k < i ==> q[k] == 0
    ensures Product(q, g)[i] == q[i]
  {
    hide Mul, Add;
    var m := |q| - 1;
    MulCommutes(q[m], 1);
    MulUnitsLeft(q[m]);
    AddLaws(q[i], 0, 0);
    if i < m {
      ProductTop(q[..m], g, i);
      assert Product(q, g)[i] == Add(Product(q[..m], g)[i], 0);
    } else {
      ProductOfZeros(q[..m], g);
      assert Product(q, g)[m] == Add((Product(q[..m], g) + [0])[m], Mul(q[m], g[0]));
    }
  }

  lemma {:induction false} ProductOfZeros(q: Poly, g: Poly)
    requires |g| > 0 && forall k :: 0 <= k < |q| ==> q[k] == 0
    ensures Product(q, g) == Zeros(|q| + |g| - 1)
  {
    hide Mul, Add;
    if q != [] {
      var m := |q| - 1;
      ProductOfZeros(q[..m], g);
      AddLaws(0, 0, 0);
      forall k | 0 <= k < m + |g|
        ensures Product(q, g)[k] == 0
      {
        if k >= m {
          MulUnitsLeft(g[k - m]);
        }
      }
    }
  }

  /** If a multiple of a monic divisor has its top |q| coefficients zero, it is zero. */
  lemma MultipleBelowDivisor(q: Poly, g: Poly, low: Poly)
    requires |g| > 0 && g[0] == 1 && |low| == |g| - 1
    requires Product(q, g) == Zeros(|q|) + low
    ensures q == Zeros(|q|) && low == Zeros(|low|)
  {
    hide Mul, Add, Product;
    var i := 0;
    while i < |q|
      invariant i <= |q| && forall k :: 0 <= k < i ==> q[k] == 0
    {
      ProductTop(q, g, i);
      i := i + 1;
    }
    ProductOfZeros(q, g);
    assert low == Product(q, g)[|q|..];
  }

  lemma SumIsZero(p: Poly, q: Poly)
    requires |p| == |q|
    ensures Sum(p, q) == Zeros(|p|) <==> p == q
  {
    if Sum(p, q) == Zeros(|p|) {
      forall i | 0 <= i < |p|
        ensures p[i] == q[i]
      {
        assert Sum(p, q)[i] == 0;
      }
    }
  }

  /** The register holds the remainder: no other one of its length works, with any quotient. */
  lemma RemainderIsUnique(data: Poly, divisor: Poly, q: Poly, rem: Poly)
    requires |divisor| == |rem| > 0 && |q| == |data|
    requires Sum(Product(q, [1] + divisor), Zeros(|data|) + rem) == data + Zeros(|divisor|)
    ensures q == Quotient(data, divisor) && rem == Remainder(data, divisor)
  {
    hide Mul, Add, Quotient, Remainder, Product;
    var g, q', rem' := [1] + divisor, Quotient(data, divisor), Remainder(data, divisor);
    DivisionIdentity(data, divisor);
    ProductSum(q, q', g);
    var p, p', z := Product(q, g), Product(q', g), Zeros(|data|);
    forall k | 0 <= k < |p|
      ensures Add(p[k], p'[k]) == Add((z + rem)[k], (z + rem')[k])
    {
      assert Sum(p, z + rem)[k] == Sum(p', z + rem')[k];
      SameSum(p[k], (z + rem)[k], p'[k], (z + rem')[k]);
    }
    AddLaws(0, 0, 0);
    assert Product(Sum(q, q'), g) == z + Sum(rem, rem');
    MultipleBelowDivisor(Sum(q, q'), g, Sum(rem, rem'));
    SumIsZero(q, q');
    SumIsZero(rem, rem');
  }

  lemma SameSum(a: bv8, b: bv8, c: bv8, d: bv8)
    requires Add(a, b) == Add(c, d)
    ensures Add(a, c) == Add(b, d)
  {
  }

  // ----- Codewords -----

  ghost predicate IsCodeword(p: Poly, n: nat) {
    forall k: nat :: k < n ==> Eval(p, Pow(GENERATOR, k)) == 0
  }

  /** A message followed by its check bytes vanishes at r^0 ... r^(n-1). */
  lemma MessageWithCheckIsCodeword(data: Poly, divisor: Poly, n: nat)
    requires n > 0 && [1] + divisor == Generator(n)
    ensures IsCodeword(data + Remainder(data, divisor), n)
  {
    hide Mul, Add, Pow, Generator, Quotient, Remainder, Product, Eval;
    var rem, q := Remainder(data, divisor), Quotient(data, divisor);
    var p, z := Product(q, Generator(n)), Zeros(|data|) + rem;
    DivisionIdentity(data, divisor);
    forall i | 0 <= i < |data| + n
      ensures (data + rem)[i] == p[i]
    {
      assert Sum(p, z)[i] == Add(p[i], z[i]) == (data + Zeros(n))[i];
      AddLaws(p[i], z[i], 0);
    }
    assert data + rem == p;
    forall k: nat | k < n
      ensures Eval(p, Pow(GENERATOR, k)) == 0
    {
      var a := Pow(GENERATOR, k);
      EvalProduct(q, Generator(n), a);
      GeneratorValue(n, a);
      RootProductVanishes(n, k);
      MulCommutes(Eval(q, a), 0);
      MulUnitsLeft(Eval(q, a));
    }
  }
}
