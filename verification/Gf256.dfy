/**
 * The field GF(2^8) with reducing polynomial 0x11D, as multiplied by
 * QrCode::reedSolomonMultiply. Addition is exclusive or.
 */
module Gf256 {
  /** The generator r of the multiplicative group. */
  const GENERATOR: bv8 := 0x02

  /** Field addition, which is also field subtraction. */
  function Add(x: bv8, y: bv8): bv8 {
    x ^ y
  }

  /** Multiplication by x: one shift, reduced when the top bit falls out. */
  function Times2(z: bv8): bv8 {
    (z << 1) ^ ((z >> 7) * 0x1D)
  }

  /** `x` if bit `i` of `y` is set, and 0 otherwise. */
  function Gate(y: bv8, i: nat, x: bv8): bv8
    requires i < 8
  {
    ((y >> i) & 1) * x
  }

  /** The part of the product of `x` and `y` that comes from bits 7 down to `i` of `y`. */
  function Horner(x: bv8, y: bv8, i: nat): bv8
    requires i <= 8
    decreases 8 - i
  {
    if i == 8 then 0 else Add(Times2(Horner(x, y, i + 1)), Gate(y, i, x))
  }

  /** The field product. */
  function Mul(x: bv8, y: bv8): bv8 {
    Horner(x, y, 0)
  }

  /** The field power. */
  function Pow(x: bv8, n: nat): bv8 {
    if n == 0 then 1 else Mul(Pow(x, n - 1), x)
  }

  // The two assignments of the loop body, on the wider integer the source computes with.

  function WideDouble(z: bv16): bv16 {
    (z << 1) ^ ((z >> 7) * 0x11D)
  }

  function WideAccumulate(z: bv16, x: bv8, y: bv8, i: nat): bv16
    requires i < 8
  {
    WideAdd(z, (y >> i) & 1, x)
  }

  function WideAdd(z: bv16, b: bv8, x: bv8): bv16 {
    z ^ (b as bv16 * x as bv16)
  }

  /** Russian peasant multiplication; the final range assertion of the source never fires. */
  method Multiply(x: bv8, y: bv8) returns (r: bv8)
    ensures r == Mul(x, y)
  {
    hide Times2, Add, Gate, WideDouble, WideAccumulate;
    var z: bv16 := 0;
    var i := 8;
    while i > 0
      invariant 0 <= i <= 8
      invariant z < 256 && z as bv8 == Horner(x, y, i)
    {
      i := i - 1;
      WideDoubleIsTimes2(z);
      z := WideDouble(z);
      WideAccumulateIsAdd(z, x, y, i);
      z := WideAccumulate(z, x, y, i);
    }
    assert z >> 8 == 0;
    r := z as bv8;
  }

  /** The wide shift stays in range and is the field doubling. */
  lemma WideDoubleIsTimes2(z: bv16)
    requires z < 256
    ensures WideDouble(z) < 256
    ensures WideDouble(z) as bv8 == Times2(z as bv8)
  {
  }

  lemma WideAccumulateIsAdd(z: bv16, x: bv8, y: bv8, i: nat)
    requires z < 256 && i < 8
    ensures WideAccumulate(z, x, y, i) < 256
    ensures WideAccumulate(z, x, y, i) as bv8 == Add(z as bv8, Gate(y, i, x))
  {
    hide WideAdd, Add;
    OneBit(y, i);
    WideAddIsAdd(z, (y >> i) & 1, x);
  }

  lemma OneBit(y: bv8, i: nat)
    requires i < 8
    ensures (y >> i) & 1 == 0 || (y >> i) & 1 == 1
  {
  }

  lemma WideAddIsAdd(z: bv16, b: bv8, x: bv8)
    requires z < 256 && (b == 0 || b == 1)
    ensures WideAdd(z, b, x) < 256 && WideAdd(z, b, x) as bv8 == Add(z as bv8, b * x)
  {
    hide WideAdd, Add;
    if b == 0 {
      AddNothing(z, x);
    } else {
      AddAll(z, x);
    }
  }

  lemma AddNothing(z: bv16, x: bv8)
    requires z < 256
    ensures WideAdd(z, 0, x) == z && 0 * x == 0 && Add(z as bv8, 0) == z as bv8
  {
  }

  lemma AddAll(z: bv16, x: bv8)
    requires z < 256
    ensures 1 * x == x && WideAdd(z, 1, x) < 256 && WideAdd(z, 1, x) as bv8 == Add(z as bv8, x)
  {
    assert 1 as bv8 as bv16 * x as bv16 == x as bv16;
  }

  // ----- Addition -----

  lemma AddLaws(a: bv8, b: bv8, c: bv8)
    ensures Add(a, b) == Add(b, a)
    ensures Add(Add(a, b), c) == Add(a, Add(b, c))
    ensures Add(a, a) == 0 && Add(a, 0) == a && Add(0, a) == a
    ensures Add(a, b) == 0 <==> a == b
  {
  }

  lemma AddSwap(a: bv8, b: bv8, c: bv8, d: bv8)
    ensures Add(Add(a, b), Add(c, d)) == Add(Add(a, c), Add(b, d))
  {
    assert (a ^ b) ^ (c ^ d) == (a ^ c) ^ (b ^ d);
  }

  // ----- Shift-and-add steps -----

  lemma Times2Add(a: bv8, b: bv8)
    ensures Times2(Add(a, b)) == Add(Times2(a), Times2(b)) && Times2(0) == 0
  {
  }

  lemma GateAdd(y: bv8, i: nat, a: bv8, b: bv8)
    requires i < 8
    ensures Gate(y, i, Add(a, b)) == Add(Gate(y, i, a), Gate(y, i, b))
  {
    assert (y >> i) & 1 == 0 || (y >> i) & 1 == 1;
  }

  lemma GateTimes2(y: bv8, i: nat, a: bv8)
    requires i < 8
    ensures Gate(y, i, Times2(a)) == Times2(Gate(y, i, a))
  {
    assert (y >> i) & 1 == 0 || (y >> i) & 1 == 1;
  }

  lemma {:induction false} HornerTimes2(x: bv8, y: bv8, i: nat)
    requires i <= 8
    ensures Horner(Times2(x), y, i) == Times2(Horner(x, y, i))
    decreases 8 - i
  {
    hide Times2, Gate, Add;
    if i == 8 {
      Times2Add(0, 0);
    } else {
      HornerTimes2(x, y, i + 1);
      GateTimes2(y, i, x);
      Times2Add(Times2(Horner(x, y, i + 1)), Gate(y, i, x));
    }
  }

  lemma {:induction false} HornerAdd(x: bv8, x': bv8, y: bv8, i: nat)
    requires i <= 8
    ensures Horner(Add(x, x'), y, i) == Add(Horner(x, y, i), Horner(x', y, i))
    decreases 8 - i
  {
    hide Times2, Gate, Add;
    if i == 8 {
      AddLaws(0, 0, 0);
    } else {
      var h, h' := Horner(x, y, i + 1), Horner(x', y, i + 1);
      HornerAdd(x, x', y, i + 1);
      GateAdd(y, i, x, x');
      Times2Add(h, h');
      AddSwap(Times2(h), Times2(h'), Gate(y, i, x), Gate(y, i, x'));
    }
  }

  /** Bits 7 down to `i` of `y`, as a number. */
  function High(y: bv8, i: nat): bv8
    requires i <= 8
  {
    y >> i
  }

  lemma HighEnds(y: bv8)
    ensures High(y, 0) == y && High(y, 8) == 0
  {
  }

  lemma ShiftStep(y: bv8, i: nat)
    requires i < 8
    ensures Add(Times2(High(y, i + 1)), Gate(y, i, 1)) == High(y, i)
  {
    var s := y >> i;
    assert y >> (i + 1) == s >> 1;
  }

  lemma {:induction false} HornerOne(y: bv8, i: nat)
    requires i <= 8
    ensures Horner(1, y, i) == High(y, i)
    decreases 8 - i
  {
    hide Times2, Gate, Add;
    if i < 8 {
      HornerOne(y, i + 1);
      ShiftStep(y, i);
    }
  }

  lemma {:induction false} HornerZero(y: bv8, i: nat)
    requires i <= 8
    ensures Horner(0, y, i) == 0
    decreases 8 - i
  {
    if i < 8 {
      HornerZero(y, i + 1);
    }
  }

  /** Unit and zero on the left. */
  lemma MulUnitsLeft(y: bv8)
    ensures Mul(1, y) == y && Mul(0, y) == 0
  {
    HornerOne(y, 0);
    HornerZero(y, 0);
    HighEnds(y);
  }

  lemma MulTimes2(x: bv8, y: bv8)
    ensures Mul(Times2(x), y) == Times2(Mul(x, y))
  {
    hide Times2, Horner;
    HornerTimes2(x, y, 0);
  }

  lemma MulAddLeft(x: bv8, x': bv8, y: bv8)
    ensures Mul(Add(x, x'), y) == Add(Mul(x, y), Mul(x', y))
  {
    hide Horner, Add;
    HornerAdd(x, x', y, 0);
  }

  lemma GateIsMul(y: bv8, i: nat, x: bv8)
    requires i < 8
    ensures Gate(y, i, x) == Mul(Gate(y, i, 1), x)
  {
    hide Mul;
    MulUnitsLeft(x);
    assert (y >> i) & 1 == 0 || (y >> i) & 1 == 1;
  }

  lemma {:induction false} HornerSwap(x: bv8, y: bv8, i: nat)
    requires i <= 8
    ensures Horner(x, y, i) == Mul(High(y, i), x)
    decreases 8 - i
  {
    hide Times2, Mul, Gate, Add, High;
    if i == 8 {
      HighEnds(y);
      MulUnitsLeft(x);
    } else {
      HornerSwap(x, y, i + 1);
      MulTimes2(High(y, i + 1), x);
      GateIsMul(y, i, x);
      MulAddLeft(Times2(High(y, i + 1)), Gate(y, i, 1), x);
      ShiftStep(y, i);
    }
  }

  // ----- Field laws -----

  lemma MulCommutes(x: bv8, y: bv8)
    ensures Mul(x, y) == Mul(y, x)
  {
    hide Horner;
    HornerSwap(x, y, 0);
    HighEnds(y);
  }

  /** Unit and zero on both sides. */
  lemma MulUnits(y: bv8)
    ensures Mul(1, y) == y && Mul(0, y) == 0
    ensures Mul(y, 1) == y && Mul(y, 0) == 0
  {
    hide *;
    MulUnitsLeft(y);
    MulCommutes(y, 1);
    MulCommutes(y, 0);
  }

  lemma MulDistributes(x: bv8, y: bv8, z: bv8)
    ensures Mul(x, Add(y, z)) == Add(Mul(x, y), Mul(x, z))
    ensures Mul(Add(y, z), x) == Add(Mul(y, x), Mul(z, x))
  {
    hide *;
    MulCommutes(x, Add(y, z));
    MulCommutes(x, y);
    MulCommutes(x, z);
    MulAddLeft(y, z, x);
  }

  lemma MulGate(x: bv8, z: bv8, i: nat, y: bv8)
    requires i < 8
    ensures Mul(x, Gate(z, i, y)) == Gate(z, i, Mul(x, y))
  {
    hide Mul;
    MulUnitsLeft(x);
    MulCommutes(x, 0);
    assert (z >> i) & 1 == 0 || (z >> i) & 1 == 1;
  }

  lemma MulTimes2Right(x: bv8, y: bv8)
    ensures Mul(x, Times2(y)) == Times2(Mul(x, y))
  {
    hide *;
    MulCommutes(x, Times2(y));
    MulCommutes(x, y);
    MulTimes2(y, x);
  }

  lemma {:induction false} HornerAssociates(x: bv8, y: bv8, z: bv8, i: nat)
    requires i <= 8
    ensures Horner(Mul(x, y), z, i) == Mul(x, Horner(y, z, i))
    decreases 8 - i
  {
    hide Times2, Mul, Gate, Add;
    if i == 8 {
      MulCommutes(x, 0);
      MulUnitsLeft(x);
    } else {
      var h := Horner(y, z, i + 1);
      HornerAssociates(x, y, z, i + 1);
      MulTimes2Right(x, h);
      MulGate(x, z, i, y);
      MulDistributes(x, Times2(h), Gate(z, i, y));
    }
  }

  lemma MulAssociates(x: bv8, y: bv8, z: bv8)
    ensures Mul(Mul(x, y), z) == Mul(x, Mul(y, z))
  {
    hide Horner;
    HornerAssociates(x, y, z, 0);
  }
}
