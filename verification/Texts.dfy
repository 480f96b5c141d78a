/** encodeText and encodeBinary: whole texts and byte strings through the encoder and back. */
module Texts {
  import opened Basics
  import opened Capacity
  import opened Decoder
  import opened Encoder
  import opened Grids
  import opened QrCodes
  import opened Results
  import opened Segments
  import opened SegmentStream

  method IsNumeric(text: CString) returns (r: bool)
    ensures r == AllDigits(text)
  {
    for i := 0 to |text|
      invariant AllDigits(text[..i])
    {
      var c := text[i];
      if c < '0' || c > '9' {
        return false;
      }
    }
    assert text[..|text|] == text;
    return true;
  }

  method IsAlphanumeric(text: CString) returns (r: bool)
    ensures r == AllAlnum(text)
  {
    hide Charset;
    for i := 0 to |text|
      invariant AllAlnum(text[..i])
    {
      if Find(Charset(), text[i]).None? {
        return false;
      }
    }
    assert text[..|text|] == text;
    return true;
  }

  function BytesOfText(text: CString): (b: seq<Byte>)
    ensures |b| == |text|
  {
    seq(|text|, i requires 0 <= i < |text| => text[i] as int)
  }

  /** The payloads of a text: none, or one in the densest mode that can express it. */
  function PayloadsOf(text: CString): (ps: seq<Payload>) {
    if text == "" then []
    else if AllDigits(text) then [Digits(text)]
    else if AllAlnum(text) then [Text(text)]
    else [Bytes(BytesOfText(text))]
  }

  /** No other way to spell the text takes fewer data bits. */
  ghost predicate Tightest(text: string, seg: Segment) {
    forall p :: Encodable(p) && TextOf(p) == text ==> |seg.data| <= |SegmentOf(p).data|
  }

  lemma DigitsAreAlnum(c: char)
    requires IsDigit(c)
    ensures IsAlnum(c)
  {
    AlnumValueIs(c);
  }

  lemma PayloadIsTightest(text: CString)
    requires text != "" && AllEncodable(PayloadsOf(text))
    ensures Tightest(text, SegmentOf(PayloadsOf(text)[0]))
  {
    hide IsDigit, IsAlnum, NumericBits, AlnumBits, ByteBits, EciBits;
    var q := PayloadsOf(text)[0];
    BitLengths(q);
    forall p | Encodable(p) && TextOf(p) == text
      ensures |SegmentOf(q).data| <= |SegmentOf(p).data|
    {
      BitLengths(p);
      if AllDigits(text) {
        forall i | 0 <= i < |text| ensures IsAlnum(text[i]) {
          DigitsAreAlnum(text[i]);
        }
      }
    }
  }

  method MakeSegments(text: CString) returns (r: Result<seq<Segment>>)
    ensures r == if AllEncodable(PayloadsOf(text)) then Ok(SegmentsOf(PayloadsOf(text))) else Err(LengthError)
    ensures r.Ok? ==> if text == "" then r.value == [] else |r.value| == 1 && Tightest(text, r.value[0])
  {
    hide AllDigits, AllAlnum, NumericBits, AlnumBits, ByteBits, Tightest;
    if text != "" && AllEncodable(PayloadsOf(text)) {
      PayloadIsTightest(text);
    }
    if text == "" {
      return Ok([]);
    }
    var numeric := IsNumeric(text);
    if numeric {
      var s := MakeNumeric(text);
      assert [s.value] == SegmentsOf([Digits(text)]);
      return Ok([s.value]);
    }
    var alphanumeric := IsAlphanumeric(text);
    if alphanumeric {
      var s := MakeAlphanumeric(text);
      assert [s.value] == SegmentsOf([Text(text)]);
      return Ok([s.value]);
    }
    var bytes: seq<Byte> := [];
    for i := 0 to |text|
      invariant bytes == BytesOfText(text)[..i]
    {
      bytes := bytes + [text[i] as int];
    }
    assert bytes == BytesOfText(text);
    var s := MakeBytes(bytes);
    if s.Err? {
      assert !Encodable(PayloadsOf(text)[0]);
      return Err(s.error);
    }
    assert [s.value] == SegmentsOf([Bytes(bytes)]);
    return Ok([s.value]);
  }

  // ----- Reading text back -----

  function TextOf(p: Payload): string {
    match p
    case Digits(text) => text
    case Text(text) => text
    case Bytes(data) => seq(|data|, i requires 0 <= i < |data| => data[i] as char)
    case Designator(_) => ""
  }

  function TextsOf(ps: seq<Payload>): string {
    if ps == [] then "" else TextOf(ps[0]) + TextsOf(ps[1..])
  }

  /** The text of a symbol, from its grid alone. */
  function ReadText(g: Grid): Option<string> {
    match ReadSymbol(g)
    case None => None
    case Some(ps) => Some(TextsOf(ps))
  }

  lemma PayloadsSpellText(text: CString)
    ensures TextsOf(PayloadsOf(text)) == text
  {
    var ps := PayloadsOf(text);
    if text != "" {
      assert ps[1..] == [];
      assert TextsOf(ps) == TextOf(ps[0]) + TextsOf([]);
    }
  }

  /** A text is encoded whenever some version holds it, boosted and best masked, and then read back letter for letter. */
  method EncodeText(text: CString, ecl: Ecc) returns (r: Result<QrCode>)
    ensures AllEncodable(PayloadsOf(text)) ==> (r.Err? <==> NoneFits(SegmentsOf(PayloadsOf(text)), ecl, 1, 40))
    ensures !AllEncodable(PayloadsOf(text)) ==> r == Err(LengthError)
    ensures r.Ok? ==> fresh(r.value) && ReadText(r.value.modules) == Some(text)
    ensures r.Ok? ==> Encodes(r.value, SegmentsOf(PayloadsOf(text)), ecl, 1, 40, -1, true)
  {
    hide PayloadsOf, NoneFits, Encodes, ReadSymbol, TextsOf;
    var segs := MakeSegments(text);
    if segs.Err? {
      return Err(segs.error);
    }
    r := EncodeSegments(segs.value, ecl, 1, 40, -1, true);
    if r.Ok? {
      EncodedSegmentsAreRead(r.value, PayloadsOf(text), ecl, 1, 40, -1, true);
      PayloadsSpellText(text);
    }
  }

  /** A byte string is encoded whenever some version holds it, boosted and best masked, and then read back byte for byte. */
  method EncodeBinary(data: seq<Byte>, ecl: Ecc) returns (r: Result<QrCode>)
    ensures |data| > INT_MAX ==> r == Err(LengthError)
    ensures |data| <= INT_MAX ==> (r.Err? <==> NoneFits([SegmentOf(Bytes(data))], ecl, 1, 40))
    ensures r.Ok? ==> fresh(r.value) && ReadSymbol(r.value.modules) == Some([Bytes(data)])
    ensures r.Ok? ==> Encodes(r.value, [SegmentOf(Bytes(data))], ecl, 1, 40, -1, true)
  {
    hide NoneFits, Encodes, ReadSymbol, ByteBits;
    var seg := MakeBytes(data);
    if seg.Err? {
      return Err(seg.error);
    }
    var ps := [Bytes(data)];
    assert [seg.value] == SegmentsOf(ps);
    r := EncodeSegments([seg.value], ecl, 1, 40, -1, true);
    if r.Ok? {
      EncodedSegmentsAreRead(r.value, ps, ecl, 1, 40, -1, true);
    }
  }
}
