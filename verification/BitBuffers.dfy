/** The appendable bit string of QrCode, and big-endian bit fields as numbers. */
module BitBuffers {
  type Bits = seq<bool>

  function Pow2(n: nat): (p: nat)
    ensures p > 0
  {
    if n == 0 then 1 else 2 * Pow2(n - 1)
  }

  /** The low `len` bits of `val`, most significant first. */
  function BitsOf(val: nat, len: nat): (b: Bits)
    ensures |b| == len
  {
    if len == 0 then [] else BitsOf(val / 2, len - 1) + [val % 2 == 1]
  }

  /** The number a bit field stands for. */
  function ValueOf(b: Bits): nat {
    if b == [] then 0 else 2 * ValueOf(b[..|b| - 1]) + (if b[|b| - 1] then 1 else 0)
  }

  lemma {:induction false} ValueOfBitsOf(val: nat, len: nat)
    requires val < Pow2(len)
    ensures ValueOf(BitsOf(val, len)) == val
  {
    if len > 0 {
      ValueOfBitsOf(val / 2, len - 1);
      assert BitsOf(val, len)[..len - 1] == BitsOf(val / 2, len - 1);
    }
  }

  lemma {:induction false} ValueBound(b: Bits)
    ensures ValueOf(b) < Pow2(|b|)
  {
    if b != [] {
      ValueBound(b[..|b| - 1]);
    }
  }

  /** A field read off the front of a bit string that starts with it. */
  lemma FieldInFront(val: nat, len: nat, rest: Bits)
    requires val < Pow2(len)
    ensures var b := BitsOf(val, len) + rest;
            ValueOf(b[..len]) == val && b[len..] == rest
  {
    var b := BitsOf(val, len) + rest;
    assert b[..len] == BitsOf(val, len);
    ValueOfBitsOf(val, len);
  }

  lemma {:induction false} Pow2Values()
    ensures Pow2(0) == 1 && Pow2(2) == 4 && Pow2(3) == 8 && Pow2(4) == 16 && Pow2(6) == 64 && Pow2(7) == 128
    ensures Pow2(8) == 256 && Pow2(10) == 1024 && Pow2(11) == 2048 && Pow2(14) == 16384 && Pow2(21) == 2097152
  {
    assert Pow2(7) == 128;
    assert Pow2(10) == 1024;
    assert Pow2(14) == 16384;
    assert Pow2(17) == 131072;
  }

  /** `val >> n`. */
  function ShiftRight(val: nat, n: nat): nat {
    if n == 0 then val else ShiftRight(val, n - 1) / 2
  }

  lemma {:induction false} ShiftRightHalf(val: nat, n: nat)
    requires n > 0
    ensures ShiftRight(val, n) == ShiftRight(val / 2, n - 1)
  {
    if n > 1 {
      ShiftRightHalf(val, n - 1);
    }
  }

  lemma {:induction false} ShiftedOut(val: nat, n: nat)
    ensures ShiftRight(val, n) == 0 <==> val < Pow2(n)
  {
    if n > 0 {
      ShiftRightHalf(val, n);
      ShiftedOut(val / 2, n - 1);
    }
  }

  /** The highest bit comes first: bit `i` of the field is bit `len - 1 - i` of the number. */
  lemma {:induction false} HighestFirst(val: nat, len: nat, i: nat)
    requires i < len
    ensures BitsOf(val, len)[i] == (ShiftRight(val, len - 1 - i) % 2 == 1)
  {
    if i < len - 1 {
      HighestFirst(val / 2, len - 1, i);
      ShiftRightHalf(val, len - 1 - i);
    }
  }

  class BitBuffer {
    var bits: Bits

    constructor ()
      ensures bits == []
    {
      bits := [];
    }

    /** Appends the low `len` bits of `val`, or reports a value out of range and changes nothing. */
    method AppendBits(val: nat, len: int) returns (ok: bool)
      modifies this
      ensures ok <==> 0 <= len <= 31 && val < Pow2(len)
      ensures bits == if ok then old(bits) + BitsOf(val, len) else old(bits)
    {
      if len < 0 || len > 31 {
        return false;
      }
      ShiftedOut(val, len);
      if ShiftRight(val, len) != 0 {
        return false;
      }
      var i := len;
      while i > 0
        invariant 0 <= i <= len
        invariant bits == old(bits) + BitsOf(ShiftRight(val, i), len - i)
      {
        i := i - 1;
        bits := bits + [ShiftRight(val, i) % 2 == 1];
      }
      return true;
    }
  }
}
