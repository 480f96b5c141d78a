/** encodeSegments: the choice of version and level, the padded data codewords, and the round trip. */
module Encoder {
  import opened Basics
  import opened BitBuffers
  import opened Capacity
  import opened Codewords
  import opened Decoder
  import opened Interleave
  import opened Patterns
  import opened QrCodes
  import opened Results
  import opened Segments
  import opened SegmentStream
  import opened Symbols

  // ----- What fits where -----

  /** Every count fits its field, and the stream fits the data codewords. */
  predicate Fits(segs: seq<Segment>, ver: int, ecl: Ecc)
    requires ValidVersion(ver)
  {
    CountsFit(segs, ver) && |StreamBits(segs, ver)| <= 8 * NumDataCodewords(ver, ecl)
  }

  predicate ValidArguments(minVersion: int, maxVersion: int, mask: int) {
    1 <= minVersion <= maxVersion <= 40 && -1 <= mask <= 7
  }

  /** The smallest version in the range that fits. */
  ghost predicate SmallestVersion(segs: seq<Segment>, ecl: Ecc, minVersion: int, maxVersion: int, ver: int)
    requires 1 <= minVersion <= maxVersion <= 40
  {
    && minVersion <= ver <= maxVersion && Fits(segs, ver, ecl)
    && forall v :: minVersion <= v < ver ==> !Fits(segs, v, ecl)
  }

  ghost predicate NoneFits(segs: seq<Segment>, ecl: Ecc, minVersion: int, maxVersion: int)
    requires 1 <= minVersion <= maxVersion <= 40
  {
    forall v :: minVersion <= v <= maxVersion ==> !Fits(segs, v, ecl)
  }

  /** Without boosting the requested level; with it the highest level that fits the version. */
  ghost predicate FinalLevel(segs: seq<Segment>, ver: int, requested: Ecc, boost: bool, ecl: Ecc)
    requires ValidVersion(ver)
  {
    && Fits(segs, ver, ecl) && Level(requested) <= Level(ecl)
    && (if boost then forall e: Ecc :: Level(e) > Level(ecl) ==> !Fits(segs, ver, e) else ecl == requested)
  }

  lemma CapacityIsSmall(ver: int, ecl: Ecc)
    requires ValidVersion(ver)
    ensures 0 < 8 * NumDataCodewords(ver, ecl) <= 29648
  {
    hide NumDataCodewords, NumRawDataModules, EccLength, NumBlocks;
    BlockParameters(ver, ecl);
    assert EccLength(ver, ecl) * NumBlocks(ver, ecl) >= 0;
  }

  method FindVersion(segs: seq<Segment>, ecl: Ecc, minVersion: int, maxVersion: int) returns (r: Result<(int, int)>)
    requires 1 <= minVersion <= maxVersion <= 40
    ensures r.Ok? ==> SmallestVersion(segs, ecl, minVersion, maxVersion, r.value.0)
    ensures r.Ok? ==> r.value.1 == |StreamBits(segs, r.value.0)|
    ensures r.Err? ==> r.error == DataTooLong && NoneFits(segs, ecl, minVersion, maxVersion)
  {
    hide NumDataCodewords, CountsFit, StreamBits;
    var version := minVersion;
    while true
      invariant minVersion <= version <= maxVersion
      invariant forall v :: minVersion <= v < version ==> !Fits(segs, v, ecl)
      decreases maxVersion - version
    {
      CapacityIsSmall(version, ecl);
      var dataCapacityBits := NumDataCodewords(version, ecl) * 8;
      var dataUsedBits := GetTotalBits(segs, version);
      if dataUsedBits != -1 && dataUsedBits <= dataCapacityBits {
        return Ok((version, dataUsedBits));
      }
      assert !Fits(segs, version, ecl);
      if version >= maxVersion {
        return Err(DataTooLong);
      }
      version := version + 1;
    }
  }

  method BoostLevel(ghost segs: seq<Segment>, version: int, dataUsedBits: int, requested: Ecc, boostEcl: bool) returns (ecl: Ecc)
    requires ValidVersion(version) && Fits(segs, version, requested) && dataUsedBits == |StreamBits(segs, version)|
    ensures FinalLevel(segs, version, requested, boostEcl, ecl)
  {
    hide NumDataCodewords, CountsFit, StreamBits;
    ecl := requested;
    var levels := [Medium, Quartile, High];
    for i := 0 to 3
      invariant Fits(segs, version, ecl) && (!boostEcl ==> ecl == requested)
      invariant boostEcl ==> ecl == requested || 0 < Level(ecl) <= i
      invariant boostEcl ==> forall e: Ecc :: 0 < Level(e) <= i && Fits(segs, version, e) ==> 0 < Level(ecl) <= i && Level(e) <= Level(ecl)
    {
      var newEcl := levels[i];
      if boostEcl && dataUsedBits <= NumDataCodewords(version, newEcl) * 8 {
        ecl := newEcl;
      }
    }
  }

  // ----- The padded bit string -----

  /** Up to four zero bits, as many as there is room for. */
  function Terminated(s: Bits, capacity: nat): (r: Bits)
    requires |s| <= capacity
    ensures |s| <= |r| <= capacity
  {
    s + BitsOf(0, if capacity - |s| < 4 then capacity - |s| else 4)
  }

  function Aligned(s: Bits): (r: Bits)
    ensures |r| == 8 * ((|s| + 7) / 8)
  {
    s + BitsOf(0, (8 - |s| % 8) % 8)
  }

  /** The bytes 0xEC and 0x11 in turn. */
  function PadBytes(k: nat): (b: Bits)
    ensures |b| == 8 * k
  {
    if k == 0 then [] else PadBytes(k - 1) + BitsOf(if k % 2 == 1 then 0xEC else 0x11, 8)
  }

  /** The padding bits: 11101100 and 00010001 in turn. */
  lemma {:induction false} PadPattern(k: nat, j: nat)
    requires j < k
    ensures PadBytes(k)[8 * j..8 * j + 8]
            == if j % 2 == 0 then [true, true, true, false, true, true, false, false]
               else [false, false, false, true, false, false, false, true]
  {
    hide BitsOf;
    var last := BitsOf(if k % 2 == 1 then 0xEC else 0x11, 8);
    assert PadBytes(k) == PadBytes(k - 1) + last;
    hide PadBytes;
    if j < k - 1 {
      PadPattern(k - 1, j);
      FrontSlice(PadBytes(k - 1), last, 8 * j);
    } else {
      PadBits();
      BackSlice(PadBytes(k - 1), last);
    }
  }

  lemma FrontSlice(a: Bits, b: Bits, i: nat)
    requires i + 8 <= |a|
    ensures (a + b)[i..i + 8] == a[i..i + 8]
  {
  }

  lemma BackSlice(a: Bits, b: Bits)
    requires |b| == 8
    ensures (a + b)[|a|..|a| + 8] == b
  {
  }

  lemma PadBits()
    ensures BitsOf(0xEC, 8) == [true, true, true, false, true, true, false, false]
    ensures BitsOf(0x11, 8) == [false, false, false, true, false, false, false, true]
  {
    assert BitsOf(0xE, 4) == [true, true, true, false] by { assert BitsOf(3, 2) == [true, true]; }
    assert BitsOf(0x3B, 6) == [true, true, true, false, true, true];
    assert BitsOf(0x1, 4) == [false, false, false, true] by { assert BitsOf(0, 2) == [false, false]; }
    assert BitsOf(0x4, 6) == [false, false, false, true, false, false];
  }

  /** The stream, its terminator and the padding, exactly to a capacity of `n` bytes. */
  function PaddedBits(s: Bits, n: nat): (r: Bits)
    requires |s| <= 8 * n
    ensures |r| == 8 * n
  {
    var t := Terminated(s, 8 * n);
    Aligned(t) + PadBytes(n - (|t| + 7) / 8)
  }

  /** Four zero bits and as many more as complete the byte, or fewer where the room ends; then pad bytes. */
  lemma PaddingIs(s: Bits, n: nat)
    requires |s| <= 8 * n
    ensures var room := 8 * n - |s|;
            var zeros := if room < 4 then room else 4 + (8 - (|s| + 4) % 8) % 8;
            zeros <= room && PaddedBits(s, n) == s + seq(zeros, _ => false) + PadBytes((room - zeros) / 8)
  {
    hide BitsOf, PadBytes;
    var room := 8 * n - |s|;
    var a := if room < 4 then room else 4;
    var t := Terminated(s, 8 * n);
    var b := (8 - |t| % 8) % 8;
    ZerosJoin(s, a, b);
    assert Aligned(t) == s + seq(a + b, _ => false);
  }

  lemma ZerosJoin(s: Bits, a: nat, b: nat)
    ensures s + BitsOf(0, a) + BitsOf(0, b) == s + seq(a + b, _ => false)
  {
    hide BitsOf;
    ZeroBits(a);
    ZeroBits(b);
  }

  /** What follows the stream stops the reader. */
  lemma PaddingStops(s: Bits, n: nat)
    requires |s| <= 8 * n
    ensures var b := PaddedBits(s, n); b[..|s|] == s && Stops(b[|s|..])
  {
    hide BitsOf, PadBytes;
    var b := PaddedBits(s, n);
    assert b[..|s|] == s;
    if 8 * n - |s| >= 4 {
      ZeroBits(4);
      forall i | 0 <= i < 4
        ensures !b[|s|..][i]
      {
        assert b[|s|..][i] == BitsOf(0, 4)[i];
      }
    }
  }

  method PadToCapacity(bb: BitBuffer, ghost n: nat, dataCapacityBits: nat)
    requires |bb.bits| <= dataCapacityBits == 8 * n
    modifies bb
    ensures bb.bits == PaddedBits(old(bb.bits), n)
  {
    hide BitsOf, Pow2, PadBytes;
    ghost var s := bb.bits;
    var room := dataCapacityBits - |bb.bits|;
    var ok := bb.AppendBits(0, if room < 4 then room else 4);
    ghost var t := Terminated(s, dataCapacityBits);
    assert ok && bb.bits == t;
    ok := bb.AppendBits(0, (8 - |bb.bits| % 8) % 8);
    ghost var a := Aligned(t);
    assert ok && bb.bits == a;
    assert |bb.bits| % 8 == 0;
    ghost var missing := n - (|t| + 7) / 8;
    PadWithBytes(bb, a, missing, dataCapacityBits);
  }

  method PadWithBytes(bb: BitBuffer, ghost a: Bits, ghost missing: nat, dataCapacityBits: nat)
    requires bb.bits == a && |a| + 8 * missing == dataCapacityBits
    modifies bb
    ensures bb.bits == a + PadBytes(missing)
  {
    hide BitsOf, Pow2, PadBytes;
    var padByte: bv8 := 0xEC;
    ghost var k := 0;
    PadStart();
    while |bb.bits| < dataCapacityBits
      invariant 0 <= k <= missing && bb.bits == a + PadBytes(k)
      invariant padByte == if k % 2 == 0 then 0xEC else 0x11
      decreases missing - k
    {
      PadValues(padByte);
      PadStep(k);
      var ok := bb.AppendBits(padByte as int, 8);
      assert ok;
      padByte := padByte ^ (0xEC ^ 0x11);
      k := k + 1;
    }
  }

  lemma PadStart()
    ensures PadBytes(0) == []
  {
  }

  lemma PadStep(k: nat)
    ensures PadBytes(k + 1) == PadBytes(k) + BitsOf(if k % 2 == 0 then 0xEC else 0x11, 8)
  {
  }

  lemma PadValues(padByte: bv8)
    requires padByte == 0xEC || padByte == 0x11
    ensures padByte as int == if padByte == 0xEC then 0xEC else 0x11
    ensures padByte as int < Pow2(8)
    ensures padByte ^ (0xEC ^ 0x11) == if padByte == 0xEC then 0x11 else 0xEC
  {
    Pow2Values();
  }

  // ----- The whole encoder -----

  /** The data codewords of a list of segments. */
  ghost predicate AreDataCodewords(segs: seq<Segment>, ver: int, ecl: Ecc, data: seq<bv8>)
    requires ValidVersion(ver) && Fits(segs, ver, ecl)
  {
    && |data| == NumDataCodewords(ver, ecl)
    && BitString(data) == PaddedBits(StreamBits(segs, ver), NumDataCodewords(ver, ecl))
  }

  method ConcatenateSegments(segs: seq<Segment>, version: int) returns (bb: BitBuffer)
    requires ValidVersion(version) && CountsFit(segs, version)
    ensures fresh(bb) && bb.bits == StreamBits(segs, version)
  {
    hide BitsOf, Pow2, CharCountBits, StreamBits, ModeBits;
    assert StreamBits([], version) == [] by { EmptyStream(version); }
    bb := new BitBuffer();
    for i := 0 to |segs|
      invariant fresh(bb) && bb.bits == StreamBits(segs[..i], version)
    {
      var seg := segs[i];
      assert ModeBits(seg.mode) < Pow2(4) by { ModeFits(seg.mode); }
      var ok := bb.AppendBits(ModeBits(seg.mode), 4);
      assert ok;
      ok := bb.AppendBits(seg.numChars, CharCountBits(seg.mode, version));
      assert ok;
      bb.bits := bb.bits + seg.data;
      StreamStep(segs, version, i);
    }
    assert segs[..|segs|] == segs;
  }

  lemma EmptyStream(version: int)
    requires ValidVersion(version)
    ensures StreamBits([], version) == []
  {
  }

  lemma ModeFits(mode: Mode)
    ensures ModeBits(mode) < Pow2(4)
  {
    Pow2Values();
  }

  lemma StreamStep(segs: seq<Segment>, version: int, i: nat)
    requires ValidVersion(version) && i < |segs|
    ensures StreamBits(segs[..i + 1], version)
            == StreamBits(segs[..i], version) + BitsOf(ModeBits(segs[i].mode), 4)
               + BitsOf(segs[i].numChars, CharCountBits(segs[i].mode, version)) + segs[i].data
  {
    hide BitsOf, CharCountBits, ModeBits;
    assert segs[..i + 1][..i] == segs[..i];
  }

  method BuildDataCodewords(segs: seq<Segment>, version: int, ecl: Ecc, dataUsedBits: int) returns (data: seq<bv8>)
    requires ValidVersion(version) && Fits(segs, version, ecl) && dataUsedBits == |StreamBits(segs, version)|
    ensures AreDataCodewords(segs, version, ecl, data)
  {
    hide NumDataCodewords, CountsFit, StreamBits, PaddedBits;
    var bb := ConcatenateSegments(segs, version);
    assert |bb.bits| == dataUsedBits;
    CapacityIsSmall(version, ecl);
    var dataCapacityBits := NumDataCodewords(version, ecl) * 8;
    assert |bb.bits| <= dataCapacityBits;
    PadToCapacity(bb, NumDataCodewords(version, ecl), dataCapacityBits);
    data := PackBytes(bb.bits);
  }

  /** A symbol for these segments: smallest version, final level, the right codewords under the right mask. */
  ghost predicate Encodes(q: QrCode, segs: seq<Segment>, requested: Ecc, minVersion: int, maxVersion: int, mask: int, boost: bool)
    requires ValidArguments(minVersion, maxVersion, mask)
    reads q
  {
    && SmallestVersion(segs, requested, minVersion, maxVersion, q.version)
    && FinalLevel(segs, q.version, requested, boost, q.errorCorrectionLevel)
    && ValidMask(q.mask) && q.size == SizeOf(q.version)
    && exists data: seq<bv8> ::
         && AreDataCodewords(segs, q.version, q.errorCorrectionLevel, data)
         && var bits := BitString(CodewordsOf(LayoutOf(q.version, q.errorCorrectionLevel), data));
            && q.modules == SymbolGrid(q.version, q.errorCorrectionLevel, bits, q.mask)
            && (if mask == -1 then BestMask(q.version, q.errorCorrectionLevel, bits, q.mask) else q.mask == mask)
  }

  method EncodeSegments(segs: seq<Segment>, ecl: Ecc, minVersion: int, maxVersion: int, mask: int, boostEcl: bool)
    returns (r: Result<QrCode>)
    ensures !ValidArguments(minVersion, maxVersion, mask) ==> r == Err(InvalidArgument)
    ensures ValidArguments(minVersion, maxVersion, mask) ==>
              (NoneFits(segs, ecl, minVersion, maxVersion) <==> r.Err?) && (r.Err? ==> r.error == DataTooLong)
    ensures r.Ok? ==> fresh(r.value) && Encodes(r.value, segs, ecl, minVersion, maxVersion, mask, boostEcl)
  {
    hide Fits, FinalLevel, AreDataCodewords, SymbolGrid, BestMask, CodewordsOf, NumDataCodewords;
    if !(1 <= minVersion <= maxVersion <= 40) || mask < -1 || mask > 7 {
      return Err(InvalidArgument);
    }
    var found := FindVersion(segs, ecl, minVersion, maxVersion);
    if found.Err? {
      return Err(found.error);
    }
    var (version, dataUsedBits) := found.value;
    var level := BoostLevel(segs, version, dataUsedBits, ecl, boostEcl);
    assert Fits(segs, version, level) by { LevelFits(segs, version, ecl, boostEcl, level); }
    var data := BuildDataCodewords(segs, version, level, dataUsedBits);
    assert |data| == NumDataCodewords(version, level) by { DataLength(segs, version, level, data); }
    r := QrCode.Create(version, level, data, mask);
  }

  lemma LevelFits(segs: seq<Segment>, ver: int, requested: Ecc, boost: bool, ecl: Ecc)
    requires ValidVersion(ver) && FinalLevel(segs, ver, requested, boost, ecl)
    ensures Fits(segs, ver, ecl)
  {
  }

  lemma DataLength(segs: seq<Segment>, ver: int, ecl: Ecc, data: seq<bv8>)
    requires ValidVersion(ver) && Fits(segs, ver, ecl) && AreDataCodewords(segs, ver, ecl, data)
    ensures |data| == NumDataCodewords(ver, ecl)
  {
  }

  // ----- Round trip -----

  /** Every list of payloads comes back, in order, from the grid of any symbol that encodes it. */
  lemma EncodedSegmentsAreRead(q: QrCode, ps: seq<Payload>, ecl: Ecc, minVersion: int, maxVersion: int, mask: int, boost: bool)
    requires ValidArguments(minVersion, maxVersion, mask) && AllEncodable(ps)
    requires Encodes(q, SegmentsOf(ps), ecl, minVersion, maxVersion, mask, boost)
    ensures ReadSymbol(q.modules) == Some(ps)
  {
    hide SymbolGrid, BestMask, CodewordsOf, NumDataCodewords, StreamBits, ReadSegments, ReadDataCodewords, ReadVersion, LayoutOf, CountsFit, PaddedBits;
    var segs, ver, level := SegmentsOf(ps), q.version, q.errorCorrectionLevel;
    var data :| && AreDataCodewords(segs, ver, level, data)
                && q.modules == SymbolGrid(ver, level, BitString(CodewordsOf(LayoutOf(ver, level), data)), q.mask);
    DataRoundTrip(ver, level, data, q.mask);
    var s, b := StreamBits(segs, ver), BitString(data);
    PaddingStops(s, NumDataCodewords(ver, level));
    assert b == s + b[|s|..];
    StreamRoundTrip(ps, ver, b[|s|..]);
  }
}
