/** Bytes as bits, most significant bit first. */
module Codewords {
  import opened BitBuffers

  function GetBit(x: bv8, i: nat): bool
    requires i < 8
  {
    (x >> i) & 1 != 0
  }

  /** The bits of a byte string, in reading order. */
  function BitString(bytes: seq<bv8>): (b: Bits)
    ensures |b| == 8 * |bytes|
  {
    seq(8 * |bytes|, i requires 0 <= i < 8 * |bytes| => GetBit(bytes[i / 8], 7 - i % 8))
  }

  /** `x` with `bit` or-ed in at place `i`. */
  function OrBit(x: bv8, bit: bool, i: nat): bv8
    requires i < 8
  {
    x | ((if bit then 1 else 0) << i)
  }

  lemma OrBitAt(x: bv8, bit: bool, i: nat, k: nat)
    requires i < 8 && k < 8
    ensures GetBit(OrBit(x, bit, i), k) == (GetBit(x, k) || (k == i && bit))
  {
    var m: bv8 := (if bit then 1 else 0) << i;
    assert ((x | m) >> k) & 1 == ((x >> k) & 1) | ((m >> k) & 1);
    assert (m >> k) & 1 != 0 <==> k == i && bit;
  }

  /** Packs bits into bytes in big endian; reading the bytes returns the bits. */
  method PackBytes(b: Bits) returns (bytes: seq<bv8>)
    requires |b| % 8 == 0
    ensures BitString(bytes) == b
  {
    hide GetBit, OrBit;
    var packed := new bv8[|b| / 8](_ => 0);
    assert forall k :: 0 <= k < 8 ==> !GetBit(0, k) by { ZeroByte(); }
    for i := 0 to |b|
      invariant forall k :: 0 <= k < |b| ==> GetBit(packed[k / 8], 7 - k % 8) == (k < i && b[k])
    {
      ghost var before := packed[..];
      packed[i / 8] := OrBit(packed[i / 8], b[i], 7 - i % 8);
      forall k | 0 <= k < |b|
        ensures GetBit(packed[k / 8], 7 - k % 8) == (k < i + 1 && b[k])
      {
        assert GetBit(before[k / 8], 7 - k % 8) == (k < i && b[k]);
        if k / 8 == i / 8 {
          OrBitAt(before[i / 8], b[i], 7 - i % 8, 7 - k % 8);
        }
      }
    }
    bytes := packed[..];
  }

  lemma ZeroByte()
    ensures forall k :: 0 <= k < 8 ==> !GetBit(0, k)
  {
  }

  /** Bit `j` of byte `k` is the one worth 128 for j = 0, down to 1 for j = 7. */
  lemma ByteSpelled(bytes: seq<bv8>, k: nat, j: nat)
    requires k < |bytes| && j < 8
    ensures BitString(bytes)[8 * k + j] == (bytes[k] & PlaceValue(j) != 0)
  {
    hide GetBit, PlaceValue;
    assert (8 * k + j) / 8 == k && (8 * k + j) % 8 == j;
    assert BitString(bytes)[8 * k + j] == GetBit(bytes[k], 7 - j);
    PlacesAreWeights(bytes[k], j);
  }

  function PlaceValue(j: nat): bv8
    requires j < 8
  {
    match j
    case 0 => 0x80
    case 1 => 0x40
    case 2 => 0x20
    case 3 => 0x10
    case 4 => 0x08
    case 5 => 0x04
    case 6 => 0x02
    case _ => 0x01
  }

  lemma PlacesAreWeights(x: bv8, j: nat)
    requires j < 8
    ensures GetBit(x, 7 - j) == (x & PlaceValue(j) != 0)
  {
    match j
    case 0 =>
    case 1 =>
    case 2 =>
    case 3 =>
    case 4 =>
    case 5 =>
    case 6 =>
    case _ =>
  }

  // ----- Bytes from bits -----

  /** The byte whose top `k` bits are the first `k` of `b`. */
  function ByteOf(b: Bits, k: nat): bv8
    requires k <= 8 && k <= |b|
  {
    if k == 0 then 0 else OrBit(ByteOf(b, k - 1), b[k - 1], 8 - k)
  }

  lemma {:induction false} ByteOfBits(b: Bits, k: nat, i: nat)
    requires k <= 8 && k <= |b| && i < 8
    ensures GetBit(ByteOf(b, k), 7 - i) == (i < k && b[i])
  {
    hide GetBit, OrBit;
    if k == 0 {
      ZeroByte();
    } else {
      ByteOfBits(b, k - 1, i);
      OrBitAt(ByteOf(b, k - 1), b[k - 1], 8 - k, 7 - i);
    }
  }

  lemma BitsDetermineByte(x: bv8, y: bv8)
    requires forall i :: 0 <= i < 8 ==> GetBit(x, i) == GetBit(y, i)
    ensures x == y
  {
    assert GetBit(x, 0) == GetBit(y, 0) && GetBit(x, 1) == GetBit(y, 1);
    assert GetBit(x, 2) == GetBit(y, 2) && GetBit(x, 3) == GetBit(y, 3);
    assert GetBit(x, 4) == GetBit(y, 4) && GetBit(x, 5) == GetBit(y, 5);
    assert GetBit(x, 6) == GetBit(y, 6) && GetBit(x, 7) == GetBit(y, 7);
  }

  /** The bytes a bit string spells. */
  function BytesOf(b: Bits): (bytes: seq<bv8>)
    ensures |bytes| == |b| / 8
  {
    seq(|b| / 8, i requires 0 <= i < |b| / 8 => ByteOf(b[8 * i..8 * i + 8], 8))
  }

  /** Every byte string is read back from its bits. */
  lemma CodewordsRoundTrip(bytes: seq<bv8>)
    ensures BytesOf(BitString(bytes)) == bytes
  {
    hide GetBit, ByteOf;
    var b := BitString(bytes);
    forall k | 0 <= k < |bytes|
      ensures ByteOf(b[8 * k..8 * k + 8], 8) == bytes[k]
    {
      forall i | 0 <= i < 8
        ensures GetBit(ByteOf(b[8 * k..8 * k + 8], 8), i) == GetBit(bytes[k], i)
      {
        ByteOfBits(b[8 * k..8 * k + 8], 8, 7 - i);
      }
      BitsDetermineByte(ByteOf(b[8 * k..8 * k + 8], 8), bytes[k]);
    }
  }
}
