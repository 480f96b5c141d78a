/**
 * QrSegment: the factory functions that pack text into bits, and a reader for each mode
 * that takes the payload back out.
 */
module Segments {
  import opened Basics
  import opened BitBuffers
  import opened Results

  const INT_MAX: int := 0x7FFF_FFFF

  /** The characters of a C string, up to its terminator; a character is one byte. */
  type CString = s: string | forall i :: 0 <= i < |s| ==> 0 < s[i] as int < 256

  datatype Mode = Numeric | Alphanumeric | ByteMode | Kanji | Eci

  function ModeBits(mode: Mode): nat {
    match mode
    case Numeric => 0x1
    case Alphanumeric => 0x2
    case ByteMode => 0x4
    case Kanji => 0x8
    case Eci => 0x7
  }

  predicate ValidVersion(ver: int) {
    1 <= ver <= 40
  }

  function CharCountBits(mode: Mode, ver: int): (n: nat)
    requires ValidVersion(ver)
    ensures n <= 16
  {
    var widths := match mode
                  case Numeric => [10, 12, 14]
                  case Alphanumeric => [9, 11, 13]
                  case ByteMode => [8, 16, 16]
                  case Kanji => [8, 10, 12]
                  case Eci => [0, 0, 0];
    widths[(ver + 7) / 17]
  }

  datatype Segment = Segment(mode: Mode, numChars: nat, data: Bits)

  function Charset(): (s: string)
    ensures |s| == 45
  {
    "0123456789" + "ABCDEFGHIJKLM" + "NOPQRSTUVWXYZ" + " $%*+-./:"
  }

  /** What a segment was made from. */
  datatype Payload =
    | Digits(text: string)
    | Text(text: string)
    | Bytes(data: seq<Byte>)
    | Designator(value: int)

  // ----- Character values -----

  predicate IsDigit(c: char) {
    '0' <= c <= '9'
  }

  function DigitValue(c: char): (d: nat)
    requires IsDigit(c)
    ensures d < 10
  {
    c as int - '0' as int
  }

  /** The index of the first occurrence, as strchr finds it. */
  function Find(s: string, c: char): (r: Option<nat>)
    ensures r.Some? <==> c in s
    ensures r.Some? ==> r.value < |s| && s[r.value] == c
  {
    if s == "" then None
    else if s[0] == c then Some(0)
    else match Find(s[1..], c)
         case None => None
         case Some(i) => Some(i + 1)
  }

  predicate IsAlnum(c: char) {
    c in Charset()
  }

  function AlnumValue(c: char): (v: nat)
    requires IsAlnum(c)
    ensures v < 45 && Charset()[v] == c
  {
    Find(Charset(), c).value
  }

  // ----- Groups of characters as numbers -----

  predicate AllDigits(s: string) {
    forall i :: 0 <= i < |s| ==> IsDigit(s[i])
  }

  predicate AllAlnum(s: string) {
    forall i :: 0 <= i < |s| ==> IsAlnum(s[i])
  }

  function DecimalValue(s: string): nat
    requires AllDigits(s)
  {
    if s == "" then 0 else 10 * DecimalValue(s[..|s| - 1]) + DigitValue(s[|s| - 1])
  }

  function DecimalText(v: nat, n: nat): string {
    if n == 0 then "" else DecimalText(v / 10, n - 1) + [(v % 10 + '0' as int) as char]
  }

  lemma {:induction false} DecimalRoundTrip(s: string)
    requires AllDigits(s)
    ensures DecimalText(DecimalValue(s), |s|) == s
  {
    if s != "" {
      var m := |s| - 1;
      DecimalRoundTrip(s[..m]);
      assert s == s[..m] + [s[m]];
    }
  }

  function AlnumPairValue(s: string): nat
    requires AllAlnum(s)
  {
    if s == "" then 0 else 45 * AlnumPairValue(s[..|s| - 1]) + AlnumValue(s[|s| - 1])
  }

  function AlnumPairText(v: nat, n: nat): string {
    if n == 0 then "" else AlnumPairText(v / 45, n - 1) + [Charset()[v % 45]]
  }

  lemma {:induction false} AlnumPairRoundTrip(s: string)
    requires AllAlnum(s)
    ensures AlnumPairText(AlnumPairValue(s), |s|) == s
  {
    hide Charset;
    if s != "" {
      var m := |s| - 1;
      AlnumPairRoundTrip(s[..m]);
      assert s == s[..m] + [s[m]];
    }
  }

  lemma SmallGroups(s: string)
    requires |s| <= 3
    ensures AllDigits(s) ==> DecimalValue(s) < (if |s| == 3 then 1000 else if |s| == 2 then 100 else if |s| == 1 then 10 else 1)
    ensures AllAlnum(s) && |s| <= 2 ==> AlnumPairValue(s) < (if |s| == 2 then 2025 else if |s| == 1 then 45 else 1)
  {
    hide AlnumValue, DigitValue, Charset, IsAlnum;
    if |s| > 0 {
      SmallGroups(s[..|s| - 1]);
    }
  }

  /** The number of a character in the alphanumeric set: digits, letters, then nine signs. */
  function CharacterNumber(c: char): int {
    if '0' <= c <= '9' then c as int - '0' as int
    else if 'A' <= c <= 'Z' then c as int - 'A' as int + 10
    else match c
         case ' ' => 36
         case '$' => 37
         case '%' => 38
         case '*' => 39
         case '+' => 40
         case '-' => 41
         case '.' => 42
         case '/' => 43
         case ':' => 44
         case _ => -1
  }

  lemma DigitsNumbered(v: nat)
    requires v < 10
    ensures CharacterNumber(Charset()[v]) == v
  {
    match v
    case 0 =>
    case 1 =>
    case 2 =>
    case 3 =>
    case 4 =>
    case 5 =>
    case 6 =>
    case 7 =>
    case 8 =>
    case _ =>
  }

  lemma FirstLettersNumbered(v: nat)
    requires 10 <= v < 23
    ensures CharacterNumber(Charset()[v]) == v
  {
    match v
    case 10 =>
    case 11 =>
    case 12 =>
    case 13 =>
    case 14 =>
    case 15 =>
    case 16 =>
    case 17 =>
    case 18 =>
    case 19 =>
    case 20 =>
    case 21 =>
    case _ =>
  }

  lemma LastLettersNumbered(v: nat)
    requires 23 <= v < 36
    ensures CharacterNumber(Charset()[v]) == v
  {
    match v
    case 23 =>
    case 24 =>
    case 25 =>
    case 26 =>
    case 27 =>
    case 28 =>
    case 29 =>
    case 30 =>
    case 31 =>
    case 32 =>
    case 33 =>
    case 34 =>
    case _ =>
  }

  lemma SignsNumbered(v: nat)
    requires 36 <= v < 45
    ensures CharacterNumber(Charset()[v]) == v
  {
    match v
    case 36 =>
    case 37 =>
    case 38 =>
    case 39 =>
    case 40 =>
    case 41 =>
    case 42 =>
    case 43 =>
    case _ =>
  }

  lemma CharsetNumbered(v: nat)
    requires v < 45
    ensures CharacterNumber(Charset()[v]) == v
  {
    hide Charset, CharacterNumber;
    if v < 10 {
      DigitsNumbered(v);
    } else if v < 23 {
      FirstLettersNumbered(v);
    } else if v < 36 {
      LastLettersNumbered(v);
    } else {
      SignsNumbered(v);
    }
  }

  lemma NumbersDiffer(c: char, d: char)
    requires CharacterNumber(c) == CharacterNumber(d) >= 0
    ensures c == d && CharacterNumber(c) < 45
  {
  }

  /** A character is in the set if and only if it has a number, and that is its value. */
  lemma AlnumValueIs(c: char)
    ensures IsAlnum(c) <==> CharacterNumber(c) >= 0
    ensures IsAlnum(c) ==> AlnumValue(c) == CharacterNumber(c)
  {
    hide Charset, CharacterNumber;
    if CharacterNumber(c) >= 0 {
      NumbersDiffer(c, c);
      CharsetNumbered(CharacterNumber(c));
      NumbersDiffer(c, Charset()[CharacterNumber(c)]);
    }
    if IsAlnum(c) {
      CharsetNumbered(AlnumValue(c));
    }
  }

  /** What a group of digits, or of characters of the set, counts. */
  lemma GroupValues(s: string)
    ensures AllDigits(s) && |s| == 1 ==> DecimalValue(s) == s[0] as int - 48
    ensures AllDigits(s) && |s| == 2 ==> DecimalValue(s) == 10 * (s[0] as int - 48) + (s[1] as int - 48)
    ensures AllDigits(s) && |s| == 3 ==>
              DecimalValue(s) == 100 * (s[0] as int - 48) + 10 * (s[1] as int - 48) + (s[2] as int - 48)
    ensures AllAlnum(s) && |s| == 1 ==> AlnumPairValue(s) == CharacterNumber(s[0])
    ensures AllAlnum(s) && |s| == 2 ==> AlnumPairValue(s) == 45 * CharacterNumber(s[0]) + CharacterNumber(s[1])
  {
    hide Charset, CharacterNumber, AlnumValue, IsAlnum;
    if 1 <= |s| <= 3 {
      AlnumValueIs(s[0]);
      AlnumValueIs(s[|s| - 1]);
      assert s[..0] == "";
      assert s[..|s| - 1][..0] == "";
      assert |s| == 3 ==> s[..2][..1] == s[..1] && s[..1][..0] == "";
    }
  }

  // ----- The bit strings -----

  /** Three digits in 10 bits, two in 7, one in 4. */
  function NumericBits(s: string): Bits
    requires AllDigits(s)
  {
    if |s| >= 3 then BitsOf(DecimalValue(s[..3]), 10) + NumericBits(s[3..])
    else if s == "" then []
    else BitsOf(DecimalValue(s), 3 * |s| + 1)
  }

  /** Two characters in 11 bits, one in 6. */
  function AlnumBits(s: string): Bits
    requires AllAlnum(s)
  {
    if |s| >= 2 then BitsOf(AlnumPairValue(s[..2]), 11) + AlnumBits(s[2..])
    else if s == "" then []
    else BitsOf(AlnumPairValue(s), 6)
  }

  function ByteBits(data: seq<Byte>): Bits {
    if data == [] then [] else BitsOf(data[0], 8) + ByteBits(data[1..])
  }

  /** The three forms of an extended channel designator. */
  function EciBits(value: nat): Bits {
    if value < 0x80 then BitsOf(value, 8)
    else if value < 0x4000 then BitsOf(2, 2) + BitsOf(value, 14)
    else BitsOf(6, 3) + BitsOf(value, 21)
  }

  predicate Encodable(p: Payload) {
    match p
    case Digits(text) => AllDigits(text)
    case Text(text) => AllAlnum(text)
    case Bytes(data) => |data| <= INT_MAX
    case Designator(value) => 0 <= value < 1000000
  }

  /** The segment a payload becomes. */
  function SegmentOf(p: Payload): Segment
    requires Encodable(p)
  {
    match p
    case Digits(text) => Segment(Numeric, |text|, NumericBits(text))
    case Text(text) => Segment(Alphanumeric, |text|, AlnumBits(text))
    case Bytes(data) => Segment(ByteMode, |data|, ByteBits(data))
    case Designator(value) => Segment(Eci, 0, EciBits(value))
  }

  lemma {:induction false} BitLengths(p: Payload)
    requires Encodable(p)
    ensures match p
            case Digits(s) => |NumericBits(s)| == 10 * (|s| / 3) + (if |s| % 3 == 0 then 0 else 3 * (|s| % 3) + 1)
            case Text(s) => |AlnumBits(s)| == 11 * (|s| / 2) + 6 * (|s| % 2)
            case Bytes(data) => |ByteBits(data)| == 8 * |data|
            case Designator(v) => |EciBits(v)| == if v < 0x80 then 8 else if v < 0x4000 then 16 else 24
    decreases match p case Digits(s) => |s| case Text(s) => |s| case Bytes(data) => |data| case Designator(_) => 0
  {
    match p
    case Digits(s) => if |s| >= 3 { BitLengths(Digits(s[3..])); }
    case Text(s) => if |s| >= 2 { BitLengths(Text(s[2..])); }
    case Bytes(data) => if data != [] { BitLengths(Bytes(data[1..])); }
    case Designator(v) =>
  }

  lemma {:induction false} NumericBitsAppend(a: string, b: string)
    requires AllDigits(a) && AllDigits(b) && |a| % 3 == 0
    ensures NumericBits(a + b) == NumericBits(a) + NumericBits(b)
  {
    hide DecimalValue, BitsOf;
    if a == "" {
      assert a + b == b;
    } else {
      NumericBitsAppend(a[3..], b);
      assert (a + b)[..3] == a[..3] && (a + b)[3..] == a[3..] + b;
    }
  }

  lemma {:induction false} AlnumBitsAppend(a: string, b: string)
    requires AllAlnum(a) && AllAlnum(b) && |a| % 2 == 0
    ensures AlnumBits(a + b) == AlnumBits(a) + AlnumBits(b)
  {
    hide Charset, AlnumPairValue, IsAlnum;
    if a == "" {
      assert a + b == b;
    } else {
      AlnumBitsAppend(a[2..], b);
      assert (a + b)[..2] == a[..2] && (a + b)[2..] == a[2..] + b;
    }
  }

  lemma {:induction false} ByteBitsAppend(a: seq<Byte>, b: seq<Byte>)
    ensures ByteBits(a + b) == ByteBits(a) + ByteBits(b)
  {
    if a == [] {
      assert a + b == b;
    } else {
      ByteBitsAppend(a[1..], b);
      assert (a + b)[1..] == a[1..] + b;
    }
  }

  // ----- The factories -----

  method MakeBytes(data: seq<Byte>) returns (r: Result<Segment>)
    ensures r == if Encodable(Bytes(data)) then Ok(SegmentOf(Bytes(data))) else Err(LengthError)
  {
    hide ByteBits;
    if |data| > INT_MAX {
      return Err(LengthError);
    }
    var bb := new BitBuffer();
    assert bb.bits == ByteBits([]) by { BytesStart(); }
    for i := 0 to |data|
      invariant bb.bits == ByteBits(data[..i])
    {
      BytesStep(data, i);
      var ok := bb.AppendBits(data[i], 8);
      assert ok;
    }
    assert data[..|data|] == data;
    return Ok(Segment(ByteMode, |data|, bb.bits));
  }

  lemma BytesStart()
    ensures ByteBits([]) == []
  {
  }

  lemma BytesStep(data: seq<Byte>, i: nat)
    requires i < |data|
    ensures ByteBits(data[..i + 1]) == ByteBits(data[..i]) + BitsOf(data[i], 8)
    ensures data[i] < Pow2(8)
  {
    Pow2Values();
    ByteBitsAppend(data[..i], [data[i]]);
    assert data[..i + 1] == data[..i] + [data[i]];
    assert ByteBits([data[i]]) == BitsOf(data[i], 8) + ByteBits([]);
  }

  method MakeNumeric(digits: CString) returns (r: Result<Segment>)
    ensures r == if Encodable(Digits(digits)) then Ok(SegmentOf(Digits(digits))) else Err(DomainError)
  {
    hide NumericBits, DecimalValue, Pow2, BitsOf, DigitValue;
    var bb := new BitBuffer();
    var accumData, accumCount, charCount := 0, 0, 0;
    ghost var done, group := "", "";
    NumericStart();
    while charCount < |digits|
      invariant 0 <= charCount <= |digits| && digits[..charCount] == done + group
      invariant AllDigits(done) && |done| % 3 == 0 && bb.bits == NumericBits(done)
      invariant AllDigits(group) && |group| == accumCount < 3 && accumData == DecimalValue(group)
    {
      var c := digits[charCount];
      if c < '0' || c > '9' {
        return Err(DomainError);
      }
      NumericDigit(group, c);
      assert digits[..charCount + 1] == digits[..charCount] + [c] == done + (group + [c]);
      accumData := accumData * 10 + DigitValue(c);
      accumCount := accumCount + 1;
      group := group + [c];
      if accumCount == 3 {
        NumericGroup(done, group);
        var ok := bb.AppendBits(accumData, 10);
        assert ok;
        accumData := 0;
        accumCount := 0;
        done, group := done + group, "";
      }
      charCount := charCount + 1;
    }
    assert digits == done + group;
    NumericEnd(done, group);
    if accumCount > 0 {
      var ok := bb.AppendBits(accumData, accumCount * 3 + 1);
      assert ok;
    }
    return Ok(Segment(Numeric, charCount, bb.bits));
  }

  lemma NumericStart()
    ensures NumericBits("") == [] && DecimalValue("") == 0
  {
  }

  lemma NumericDigit(group: string, c: char)
    requires AllDigits(group) && IsDigit(c)
    ensures AllDigits(group + [c])
    ensures DecimalValue(group + [c]) == DecimalValue(group) * 10 + DigitValue(c)
  {
    hide DigitValue;
    assert (group + [c])[..|group|] == group;
  }

  lemma NumericGroup(done: string, group: string)
    requires AllDigits(done) && AllDigits(group) && |done| % 3 == 0 && |group| == 3
    ensures DecimalValue(group) < Pow2(10) && |done + group| % 3 == 0
    ensures NumericBits(done + group) == NumericBits(done) + BitsOf(DecimalValue(group), 10)
  {
    hide DecimalValue, Pow2, BitsOf;
    SmallGroups(group);
    Pow2Values();
    NumericBitsAppend(done, group);
    assert group[..3] == group && group[3..] == "";
    assert NumericBits(group) == BitsOf(DecimalValue(group), 10);
  }

  lemma NumericEnd(done: string, group: string)
    requires AllDigits(done) && AllDigits(group) && |done| % 3 == 0 && |group| < 3
    ensures AllDigits(done + group)
    ensures NumericBits(done + group) ==
            NumericBits(done) + (if group == "" then [] else BitsOf(DecimalValue(group), |group| * 3 + 1))
    ensures DecimalValue(group) < Pow2(|group| * 3 + 1)
  {
    hide DecimalValue, Pow2, BitsOf;
    NumericBitsAppend(done, group);
    SmallGroups(group);
    Pow2Values();
  }

  method MakeAlphanumeric(text: CString) returns (r: Result<Segment>)
    ensures r == if Encodable(Text(text)) then Ok(SegmentOf(Text(text))) else Err(DomainError)
  {
    hide AlnumBits, AlnumPairValue, Charset, Pow2, BitsOf;
    var bb := new BitBuffer();
    var accumData, accumCount, charCount := 0, 0, 0;
    ghost var done, group := "", "";
    AlnumStart();
    while charCount < |text|
      invariant 0 <= charCount <= |text| && text[..charCount] == done + group
      invariant AllAlnum(done) && |done| % 2 == 0 && bb.bits == AlnumBits(done)
      invariant AllAlnum(group) && |group| == accumCount < 2 && accumData == AlnumPairValue(group)
    {
      var c := text[charCount];
      var temp := Find(Charset(), c);
      if temp.None? {
        return Err(DomainError);
      }
      AlnumChar(group, c);
      assert text[..charCount + 1] == text[..charCount] + [c] == done + (group + [c]);
      accumData := accumData * 45 + temp.value;
      accumCount := accumCount + 1;
      group := group + [c];
      if accumCount == 2 {
        AlnumGroup(done, group);
        var ok := bb.AppendBits(accumData, 11);
        assert ok;
        accumData := 0;
        accumCount := 0;
        done, group := done + group, "";
      }
      charCount := charCount + 1;
    }
    assert text == done + group;
    AlnumEnd(done, group);
    if accumCount > 0 {
      var ok := bb.AppendBits(accumData, 6);
      assert ok;
    }
    return Ok(Segment(Alphanumeric, charCount, bb.bits));
  }

  lemma AlnumStart()
    ensures AlnumBits("") == [] && AlnumPairValue("") == 0
  {
  }

  lemma AlnumChar(group: string, c: char)
    requires AllAlnum(group) && IsAlnum(c)
    ensures AllAlnum(group + [c])
    ensures AlnumPairValue(group + [c]) == AlnumPairValue(group) * 45 + AlnumValue(c)
  {
    hide IsAlnum, AlnumValue;
    assert (group + [c])[..|group|] == group;
  }

  lemma AlnumGroup(done: string, group: string)
    requires AllAlnum(done) && AllAlnum(group) && |done| % 2 == 0 && |group| == 2
    ensures AlnumPairValue(group) < Pow2(11) && |done + group| % 2 == 0
    ensures AlnumBits(done + group) == AlnumBits(done) + BitsOf(AlnumPairValue(group), 11)
  {
    hide IsAlnum, AlnumPairValue, Pow2, BitsOf;
    SmallGroups(group);
    Pow2Values();
    AlnumBitsAppend(done, group);
    assert group[..2] == group && group[2..] == "";
    assert AlnumBits(group) == BitsOf(AlnumPairValue(group), 11);
  }

  lemma AlnumEnd(done: string, group: string)
    requires AllAlnum(done) && AllAlnum(group) && |done| % 2 == 0 && |group| < 2
    ensures AllAlnum(done + group)
    ensures AlnumBits(done + group) ==
            AlnumBits(done) + (if group == "" then [] else BitsOf(AlnumPairValue(group), 6))
    ensures group != "" ==> AlnumPairValue(group) < Pow2(6)
  {
    hide Charset, IsAlnum, AlnumValue, AlnumPairValue, Pow2, BitsOf;
    AlnumBitsAppend(done, group);
    SmallGroups(group);
    Pow2Values();
  }

  method MakeEci(assignVal: int) returns (r: Result<Segment>)
    ensures r == if Encodable(Designator(assignVal)) then Ok(SegmentOf(Designator(assignVal))) else Err(DomainError)
  {
    hide Pow2, BitsOf;
    Pow2Values();
    var bb := new BitBuffer();
    if assignVal < 0 {
      return Err(DomainError);
    } else if assignVal < Pow2(7) {
      var ok := bb.AppendBits(assignVal, 8);
      assert ok;
    } else if assignVal < Pow2(14) {
      var ok := bb.AppendBits(2, 2);
      assert ok;
      ok := bb.AppendBits(assignVal, 14);
      assert ok;
    } else if assignVal < 1000000 {
      var ok := bb.AppendBits(6, 3);
      assert ok;
      ok := bb.AppendBits(assignVal, 21);
      assert ok;
    } else {
      return Err(DomainError);
    }
    assert bb.bits == EciBits(assignVal);
    return Ok(Segment(Eci, 0, bb.bits));
  }

  // ----- Reading the payloads back -----

  function ReadNumeric(b: Bits, n: nat): (r: Option<(string, Bits)>)
    ensures r.Some? ==> |r.value.1| <= |b|
    decreases n
  {
    var k := if n < 3 then n else 3;
    var width := if k == 0 then 0 else 3 * k + 1;
    if |b| < width then None
    else if k == 0 then Some(("", b))
    else
      match ReadNumeric(b[width..], n - k)
      case None => None
      case Some((text, rest)) => Some((DecimalText(ValueOf(b[..width]), k) + text, rest))
  }

  function ReadAlnum(b: Bits, n: nat): (r: Option<(string, Bits)>)
    ensures r.Some? ==> |r.value.1| <= |b|
    decreases n
  {
    var k := if n < 2 then n else 2;
    var width := if k == 2 then 11 else 6 * k;
    if |b| < width then None
    else if k == 0 then Some(("", b))
    else
      match ReadAlnum(b[width..], n - k)
      case None => None
      case Some((text, rest)) => Some((AlnumPairText(ValueOf(b[..width]), k) + text, rest))
  }

  function ReadBytes(b: Bits, n: nat): (r: Option<(seq<Byte>, Bits)>)
    ensures r.Some? ==> |r.value.1| <= |b|
    decreases n
  {
    if n == 0 then Some(([], b))
    else if |b| < 8 then None
    else
      match ReadBytes(b[8..], n - 1)
      case None => None
      case Some((data, rest)) =>
        ValueBound(b[..8]);
        Pow2Values();
        Some(([ValueOf(b[..8])] + data, rest))
  }

  /** A designator starts with 0, 10 or 110. */
  function ReadEci(b: Bits): (r: Option<(int, Bits)>)
    ensures r.Some? ==> |r.value.1| <= |b|
  {
    if |b| >= 8 && !b[0] then Some((ValueOf(b[1..8]), b[8..]))
    else if |b| >= 16 && b[0] && !b[1] then Some((ValueOf(b[2..16]), b[16..]))
    else if |b| >= 24 && b[0] && b[1] && !b[2] then Some((ValueOf(b[3..24]), b[24..]))
    else None
  }

  lemma {:induction false} NumericRoundTrip(s: string, rest: Bits)
    requires AllDigits(s)
    ensures ReadNumeric(NumericBits(s) + rest, |s|) == Some((s, rest))
  {
    hide DecimalValue, DecimalText, BitsOf, ValueOf, Pow2;
    var b := NumericBits(s) + rest;
    var k := if |s| < 3 then |s| else 3;
    if k > 0 {
      var tail := if |s| >= 3 then NumericBits(s[3..]) + rest else rest;
      var width := 3 * k + 1;
      SmallGroups(s[..k]);
      Pow2Values();
      assert k == |s| ==> s[..k] == s;
      assert b == BitsOf(DecimalValue(s[..k]), width) + tail;
      FieldInFront(DecimalValue(s[..k]), width, tail);
      DecimalRoundTrip(s[..k]);
      assert s[..k] + s[k..] == s;
      assert tail == NumericBits(s[k..]) + rest;
      NumericRoundTrip(s[k..], rest);
    } else {
      assert b == rest;
    }
  }

  lemma {:induction false} AlnumRoundTrip(s: string, rest: Bits)
    requires AllAlnum(s)
    ensures ReadAlnum(AlnumBits(s) + rest, |s|) == Some((s, rest))
  {
    hide AlnumPairValue, AlnumPairText, BitsOf, ValueOf, Pow2, IsAlnum;
    var b := AlnumBits(s) + rest;
    var k := if |s| < 2 then |s| else 2;
    if k > 0 {
      var tail := if |s| >= 2 then AlnumBits(s[2..]) + rest else rest;
      var width := if k == 2 then 11 else 6;
      SmallGroups(s[..k]);
      Pow2Values();
      assert k == |s| ==> s[..k] == s;
      assert b == BitsOf(AlnumPairValue(s[..k]), width) + tail;
      FieldInFront(AlnumPairValue(s[..k]), width, tail);
      AlnumPairRoundTrip(s[..k]);
      assert s[..k] + s[k..] == s;
      assert tail == AlnumBits(s[k..]) + rest;
      AlnumRoundTrip(s[k..], rest);
    } else {
      assert b == rest;
    }
  }

  lemma {:induction false} BytesRoundTrip(data: seq<Byte>, rest: Bits)
    ensures ReadBytes(ByteBits(data) + rest, |data|) == Some((data, rest))
  {
    hide BitsOf, ValueOf, Pow2;
    var b := ByteBits(data) + rest;
    if data != [] {
      var tail := ByteBits(data[1..]) + rest;
      assert b == BitsOf(data[0], 8) + tail;
      Pow2Values();
      FieldInFront(data[0], 8, tail);
      BytesRoundTrip(data[1..], rest);
      assert [data[0]] + data[1..] == data;
    } else {
      assert b == rest;
    }
  }

  /** Dropping leading zero bits of a field does not change its value. */
  lemma {:induction false} LeadingZeros(val: nat, len: nat, k: nat)
    requires k <= len && val < Pow2(len - k)
    ensures ValueOf(BitsOf(val, len)[k..]) == val
    ensures forall i :: 0 <= i < k ==> !BitsOf(val, len)[i]
  {
    if k == len {
      ZeroBits(len);
    } else {
      LeadingZeros(val / 2, len - 1, k);
      var b := BitsOf(val, len)[k..];
      assert b[..|b| - 1] == BitsOf(val / 2, len - 1)[k..];
    }
  }

  lemma {:induction false} ZeroBits(len: nat)
    ensures BitsOf(0, len) == seq(len, _ => false)
  {
    if len > 0 {
      ZeroBits(len - 1);
    }
  }

  lemma EciRoundTrip(value: nat, rest: Bits)
    requires value < 1000000
    ensures ReadEci(EciBits(value) + rest) == Some((value, rest))
  {
    hide BitsOf, ValueOf, Pow2;
    var b := EciBits(value) + rest;
    Pow2Values();
    if value < 0x80 {
      LeadingZeros(value, 8, 1);
      assert b[1..8] == BitsOf(value, 8)[1..];
      assert b[0] == BitsOf(value, 8)[0];
      assert b[8..] == rest;
    } else if value < 0x4000 {
      SmallPrefixes();
      LeadingZeros(value, 14, 0);
      assert b[0] && !b[1];
      assert b[2..16] == BitsOf(value, 14)[0..];
      assert b[16..] == rest;
    } else {
      SmallPrefixes();
      LeadingZeros(value, 21, 0);
      assert b[0] && b[1] && !b[2];
      assert b[3..24] == BitsOf(value, 21)[0..];
      assert b[24..] == rest;
    }
  }

  lemma SmallPrefixes()
    ensures BitsOf(2, 2) == [true, false] && BitsOf(6, 3) == [true, true, false]
  {
    assert BitsOf(0, 0) == [];
    assert BitsOf(1, 1) == [true];
    assert BitsOf(3, 2) == [true, true];
  }
}
