/** Lists of segments as one bit stream: its exact length, its contents, and its reader. */
module SegmentStream {
  import opened Basics
  import opened BitBuffers
  import opened Segments

  /** One segment with its header. */
  function SegmentBits(seg: Segment, ver: int): (b: Bits)
    requires ValidVersion(ver)
    ensures |b| >= 4
  {
    BitsOf(ModeBits(seg.mode), 4) + BitsOf(seg.numChars, CharCountBits(seg.mode, ver)) + seg.data
  }

  function StreamBits(segs: seq<Segment>, ver: int): Bits
    requires ValidVersion(ver)
  {
    if segs == [] then [] else StreamBits(segs[..|segs| - 1], ver) + SegmentBits(segs[|segs| - 1], ver)
  }

  /** The character count fits its field at this version. */
  predicate CountFits(seg: Segment, ver: int)
    requires ValidVersion(ver)
  {
    seg.numChars < Pow2(CharCountBits(seg.mode, ver))
  }

  predicate CountsFit(segs: seq<Segment>, ver: int)
    requires ValidVersion(ver)
  {
    forall i :: 0 <= i < |segs| ==> CountFits(segs[i], ver)
  }

  // ----- The total length -----

  lemma {:induction false} StreamGrows(segs: seq<Segment>, ver: int, i: nat)
    requires ValidVersion(ver) && i <= |segs|
    ensures |StreamBits(segs[..i], ver)| <= |StreamBits(segs, ver)|
    decreases |segs|
  {
    if i < |segs| {
      var m := |segs| - 1;
      assert segs[..m][..i] == segs[..i];
      StreamGrows(segs[..m], ver, i);
    } else {
      assert segs[..i] == segs;
    }
  }

  /**
   * The exact length of the stream, or -1 if and only if some count does not fit its field
   * or the length exceeds INT_MAX. No intermediate value exceeds INT_MAX.
   */
  method GetTotalBits(segs: seq<Segment>, ver: int) returns (result: int)
    requires ValidVersion(ver)
    ensures result == if CountsFit(segs, ver) && |StreamBits(segs, ver)| <= INT_MAX
                      then |StreamBits(segs, ver)| else -1
  {
    hide Pow2, BitsOf, CharCountBits;
    result := 0;
    for i := 0 to |segs|
      invariant CountsFit(segs[..i], ver)
      invariant 0 <= result == |StreamBits(segs[..i], ver)| <= INT_MAX
    {
      var seg := segs[i];
      assert segs[..i + 1][..i] == segs[..i];
      StreamGrows(segs, ver, i + 1);
      var ccbits := CharCountBits(seg.mode, ver);
      if seg.numChars >= Pow2(ccbits) {
        return -1;
      }
      if 4 + ccbits > INT_MAX - result {
        return -1;
      }
      result := result + (4 + ccbits);
      assert 0 <= INT_MAX - result;
      if |seg.data| > INT_MAX - result {
        return -1;
      }
      result := result + |seg.data|;
    }
    assert segs[..|segs|] == segs;
  }

  // ----- Reading a stream -----

  function ReadSegment(b: Bits, ver: int): (r: Option<(Payload, Bits)>)
    requires ValidVersion(ver) && |b| >= 4
    ensures r.Some? ==> |r.value.1| < |b|
  {
    var mode := ValueOf(b[..4]);
    var body := b[4..];
    if mode == 1 then ReadCounted(Numeric, body, ver)
    else if mode == 2 then ReadCounted(Alphanumeric, body, ver)
    else if mode == 4 then ReadCounted(ByteMode, body, ver)
    else if mode == 7 then
      match ReadEci(body)
      case None => None
      case Some((value, rest)) => Some((Designator(value), rest))
    else None
  }

  /** The width of the count field in the three bands of versions. */
  function FieldWidth(mode: Mode, ver: int): nat
    requires mode.Numeric? || mode.Alphanumeric? || mode.ByteMode?
  {
    if mode.ByteMode? then if ver <= 9 then 8 else 16
    else if mode.Numeric? then if ver <= 9 then 10 else if ver <= 26 then 12 else 14
    else if ver <= 9 then 9 else if ver <= 26 then 11 else 13
  }

  lemma WidthsAgree(mode: Mode, ver: int)
    requires ValidVersion(ver) && (mode.Numeric? || mode.Alphanumeric? || mode.ByteMode?)
    ensures CharCountBits(mode, ver) == FieldWidth(mode, ver)
  {
  }

  function ReadCounted(mode: Mode, b: Bits, ver: int): (r: Option<(Payload, Bits)>)
    requires ValidVersion(ver) && (mode.Numeric? || mode.Alphanumeric? || mode.ByteMode?)
    ensures r.Some? ==> |r.value.1| <= |b|
  {
    var cc := FieldWidth(mode, ver);
    if |b| < cc then None else
      var n, body := ValueOf(b[..cc]), b[cc..];
      match mode
      case Numeric => (match ReadNumeric(body, n)
                       case None => None
                       case Some((text, rest)) => Some((Digits(text), rest)))
      case Alphanumeric => (match ReadAlnum(body, n)
                            case None => None
                            case Some((text, rest)) => Some((Text(text), rest)))
      case ByteMode => (match ReadBytes(body, n)
                        case None => None
                        case Some((data, rest)) => Some((Bytes(data), rest)))
  }

  /** Reads segments until a terminator or until fewer than four bits remain. */
  function ReadSegments(b: Bits, ver: int): Option<seq<Payload>>
    requires ValidVersion(ver)
    decreases |b|
  {
    if |b| < 4 || ValueOf(b[..4]) == 0 then Some([])
    else
      match ReadSegment(b, ver)
      case None => None
      case Some((p, rest)) =>
        match ReadSegments(rest, ver)
        case None => None
        case Some(ps) => Some([p] + ps)
  }

  // ----- Round trip -----

  predicate AllEncodable(ps: seq<Payload>) {
    forall i :: 0 <= i < |ps| ==> Encodable(ps[i])
  }

  /** The segments the factories make of a list of payloads. */
  function SegmentsOf(ps: seq<Payload>): (segs: seq<Segment>)
    requires AllEncodable(ps)
    ensures |segs| == |ps| && forall i :: 0 <= i < |ps| ==> segs[i] == SegmentOf(ps[i])
  {
    seq(|ps|, i requires 0 <= i < |ps| => SegmentOf(ps[i]))
  }

  /** What follows the last segment stops the reader. */
  predicate Stops(tail: Bits) {
    |tail| < 4 || forall i :: 0 <= i < 4 ==> !tail[i]
  }

  lemma CountedRoundTrip(p: Payload, ver: int, rest: Bits)
    requires ValidVersion(ver) && Encodable(p) && !p.Designator? && CountFits(SegmentOf(p), ver)
    ensures var seg := SegmentOf(p);
            ReadCounted(seg.mode, BitsOf(seg.numChars, CharCountBits(seg.mode, ver)) + (seg.data + rest), ver) == Some((p, rest))
  {
    hide BitsOf, ValueOf, Pow2, NumericBits, AlnumBits, ByteBits, ReadNumeric, ReadAlnum, ReadBytes, CharCountBits, FieldWidth;
    var seg := SegmentOf(p);
    WidthsAgree(seg.mode, ver);
    FieldInFront(seg.numChars, FieldWidth(seg.mode, ver), seg.data + rest);
    match p
    case Digits(text) => NumericRoundTrip(text, rest);
    case Text(text) => AlnumRoundTrip(text, rest);
    case Bytes(data) => BytesRoundTrip(data, rest);
  }

  lemma SegmentRoundTrip(p: Payload, ver: int, rest: Bits)
    requires ValidVersion(ver) && Encodable(p) && CountFits(SegmentOf(p), ver)
    ensures ReadSegment(SegmentBits(SegmentOf(p), ver) + rest, ver) == Some((p, rest))
    ensures ValueOf((SegmentBits(SegmentOf(p), ver) + rest)[..4]) != 0
  {
    hide BitsOf, ValueOf, Pow2, NumericBits, AlnumBits, ByteBits, EciBits, ReadCounted, ReadEci, CharCountBits;
    var seg := SegmentOf(p);
    var cc := CharCountBits(seg.mode, ver);
    var b := SegmentBits(seg, ver) + rest;
    var body := BitsOf(seg.numChars, cc) + (seg.data + rest);
    assert b == BitsOf(ModeBits(seg.mode), 4) + body;
    Pow2Values();
    FieldInFront(ModeBits(seg.mode), 4, body);
    if p.Designator? {
      EciRoundTrip(p.value, rest);
      assert cc == 0 by { EciHasNoCount(ver); }
      assert body == seg.data + rest;
    } else {
      CountedRoundTrip(p, ver, rest);
    }
  }

  /** The length of one segment with its header, in closed form. */
  lemma SegmentLength(p: Payload, ver: int)
    requires ValidVersion(ver) && Encodable(p)
    ensures |StreamBits([SegmentOf(p)], ver)|
            == match p
               case Bytes(data) => (if ver <= 9 then 12 else 20) + 8 * |data|
               case Digits(s) => (if ver <= 9 then 14 else if ver <= 26 then 16 else 18)
                                 + 10 * (|s| / 3) + (if |s| % 3 == 0 then 0 else 3 * (|s| % 3) + 1)
               case Text(s) => (if ver <= 9 then 13 else if ver <= 26 then 15 else 17) + 11 * (|s| / 2) + 6 * (|s| % 2)
               case Designator(v) => if v < 0x80 then 12 else if v < 0x4000 then 20 else 28
  {
    hide NumericBits, AlnumBits, ByteBits, EciBits, CharCountBits;
    var seg := SegmentOf(p);
    BitLengths(p);
    if seg.mode.Eci? {
      EciHasNoCount(ver);
    } else {
      WidthsAgree(seg.mode, ver);
    }
    assert [seg][..0] == [];
    assert StreamBits([seg], ver) == StreamBits([], ver) + SegmentBits(seg, ver);
  }

  lemma EciHasNoCount(ver: int)
    requires ValidVersion(ver)
    ensures CharCountBits(Eci, ver) == 0
  {
  }

  lemma {:induction false} StreamFront(segs: seq<Segment>, ver: int)
    requires ValidVersion(ver) && segs != []
    ensures StreamBits(segs, ver) == SegmentBits(segs[0], ver) + StreamBits(segs[1..], ver)
  {
    hide SegmentBits;
    var m := |segs| - 1;
    if m > 0 {
      StreamFront(segs[..m], ver);
      assert segs[..m][1..] == segs[1..][..m - 1];
      assert segs[1..][m - 1] == segs[m];
    }
  }

  /** Every encodable list of payloads is read back from its stream, in order. */
  lemma {:induction false} StreamRoundTrip(ps: seq<Payload>, ver: int, tail: Bits)
    requires ValidVersion(ver) && AllEncodable(ps) && CountsFit(SegmentsOf(ps), ver) && Stops(tail)
    ensures ReadSegments(StreamBits(SegmentsOf(ps), ver) + tail, ver) == Some(ps)
  {
    hide SegmentBits, SegmentOf, Encodable, ReadSegment, CountFits;
    var b := StreamBits(SegmentsOf(ps), ver) + tail;
    if ps == [] {
      assert b == tail;
      if |tail| >= 4 {
        StopValue(tail);
      }
    } else {
      var segs := SegmentsOf(ps);
      StreamFront(segs, ver);
      assert segs[1..] == SegmentsOf(ps[1..]);
      var rest := StreamBits(segs[1..], ver) + tail;
      assert b == SegmentBits(segs[0], ver) + rest;
      SegmentRoundTrip(ps[0], ver, rest);
      StreamRoundTrip(ps[1..], ver, tail);
      assert [ps[0]] + ps[1..] == ps;
    }
  }

  lemma StopValue(tail: Bits)
    requires |tail| >= 4 && forall i :: 0 <= i < 4 ==> !tail[i]
    ensures ValueOf(tail[..4]) == 0
  {
    var t := tail[..4];
    assert t[..3][..2] == t[..2] && t[..2][..1] == t[..1] && t[..1][..0] == [];
    assert ValueOf(t[..1]) == 0;
    assert ValueOf(t[..2]) == 0;
    assert ValueOf(t[..3]) == 0;
  }
}
