/** The check bits of the format and version words: how many errors they can stand. */
module CheckWords {
  import opened Capacity
  import opened Patterns

  // ----- Format words -----

  /** Five data bits and ten check bits, before whitening. */
  function FormatCode(data: bv16): bv16
    requires data < 32
  {
    Glue(data, FormatRem(data, 10))
  }

  function Glue(data: bv16, rem: bv16): bv16 {
    (data << 10) | rem
  }

  function Xor(a: bv16, b: bv16): bv16 {
    a ^ b
  }

  /** The exclusive sum of the words picked by the data bits, each a multiple of the generator 0x537. */
  function FormatSum(data: bv16): bv16 {
    ((data & 1) * 0x537) ^ (((data >> 1) & 1) * 0xA6E) ^ (((data >> 2) & 1) * 0x11EB)
    ^ (((data >> 3) & 1) * 0x23D6) ^ (((data >> 4) & 1) * 0x429B)
  }

  function FormatSteps(d: bv16): bv16 {
    FormatRemStep(FormatRemStep(FormatRemStep(FormatRemStep(FormatRemStep(d)))))
  }

  lemma FiveFormatSteps(data: bv16, i: nat)
    requires data < 32
    ensures FormatRem(data, i + 5) == FormatSteps(FormatRem(data, i))
  {
    hide FormatRemStep;
    assert FormatRem(data, i + 1) == FormatRemStep(FormatRem(data, i));
    assert FormatRem(data, i + 2) == FormatRemStep(FormatRem(data, i + 1));
    assert FormatRem(data, i + 3) == FormatRemStep(FormatRem(data, i + 2));
    assert FormatRem(data, i + 4) == FormatRemStep(FormatRem(data, i + 3));
    assert FormatRem(data, i + 5) == FormatRemStep(FormatRem(data, i + 4));
  }

  lemma FormatUnrolled(data: bv16)
    requires data < 32
    ensures FormatRem(data, 10) == FormatSteps(FormatSteps(data))
  {
    hide FormatSteps;
    FiveFormatSteps(data, 0);
    FiveFormatSteps(data, 5);
  }

  lemma FormatStepsAre(data: bv16)
    requires data < 32
    ensures Glue(data, FormatSteps(FormatSteps(data))) == FormatSum(data)
  {
  }

  lemma FormatCodeIs(data: bv16)
    requires data < 32
    ensures FormatCode(data) == FormatSum(data)
  {
    hide FormatSteps, FormatSum, Glue;
    FormatUnrolled(data);
    FormatStepsAre(data);
  }

  function Ones(w: bv16): bv16 {
    (w & 1) + ((w >> 1) & 1) + ((w >> 2) & 1) + ((w >> 3) & 1) + ((w >> 4) & 1) + ((w >> 5) & 1) + ((w >> 6) & 1)
    + ((w >> 7) & 1) + ((w >> 8) & 1) + ((w >> 9) & 1) + ((w >> 10) & 1) + ((w >> 11) & 1) + ((w >> 12) & 1)
    + ((w >> 13) & 1) + ((w >> 14) & 1) + ((w >> 15) & 1)
  }

  lemma FormatSumsFarApart(a: bv16, b: bv16)
    requires a < 32 && b < 32 && a != b
    ensures Ones(Xor(FormatSum(a), FormatSum(b))) >= 7
  {
    var d := a ^ b;
    assert Xor(FormatSum(a), FormatSum(b)) == FormatSum(d);
    HeavySum(d);
  }

  lemma HeavySum(d: bv16)
    requires 0 < d < 32
    ensures Ones(FormatSum(d)) >= 7
  {
  }

  lemma WhiteningCancels(a: bv16, b: bv16)
    ensures Xor(Xor(a, 0x5412), Xor(b, 0x5412)) == Xor(a, b)
  {
  }

  lemma DataDiffer(ecl: Ecc, msk: int, ecl': Ecc, msk': int)
    requires ValidMask(msk) && ValidMask(msk') && (ecl != ecl' || msk != msk')
    ensures FormatData(ecl, msk) != FormatData(ecl', msk')
  {
    var a, b := FormatData(ecl, msk), FormatData(ecl', msk');
    assert a >> 3 == FormatLevel(ecl) && b >> 3 == FormatLevel(ecl');
    assert a & 7 == FormatData(Medium, msk) && b & 7 == FormatData(Medium, msk');
  }

  /** The word of the medium level and mask 0 is the whitening alone. */
  lemma PlainFormatWord()
    ensures FormatWord(Medium, 0) == 0x5412
  {
    hide FormatCode, FormatSum, FormatJoin, FormatRem;
    assert FormatData(Medium, 0) == 0;
    JoinIsCode(0);
    FormatCodeIs(0);
    EmptySum();
    assert Xor(0, 0x5412) == 0x5412;
  }

  lemma EmptySum()
    ensures FormatSum(0) == 0
  {
  }

  lemma JoinIsCode(data: bv16)
    requires data < 32
    ensures FormatJoin(data, FormatRem(data, 10)) == Xor(FormatCode(data), 0x5412)
  {
    hide FormatJoin, Xor, Glue, FormatRem;
    JoinIsGlue(data, FormatRem(data, 10));
  }

  lemma JoinIsGlue(data: bv16, rem: bv16)
    ensures FormatJoin(data, rem) == Xor(Glue(data, rem), 0x5412)
  {
  }

  /** Any two format words differ in at least seven places, so that three wrong bits can be put right. */
  lemma FormatWordsFarApart(ecl: Ecc, msk: int, ecl': Ecc, msk': int)
    requires ValidMask(msk) && ValidMask(msk') && (ecl != ecl' || msk != msk')
    ensures Ones(Xor(FormatWord(ecl, msk), FormatWord(ecl', msk'))) >= 7
  {
    hide FormatCode, FormatSum, Ones, FormatRem, FormatData, FormatJoin, Xor;
    var a, b := FormatData(ecl, msk), FormatData(ecl', msk');
    DataDiffer(ecl, msk, ecl', msk');
    JoinIsCode(a);
    JoinIsCode(b);
    FormatCodeIs(a);
    FormatCodeIs(b);
    WhiteningCancels(FormatCode(a), FormatCode(b));
    FormatSumsFarApart(a, b);
  }

  // ----- Version words -----

  /** The exclusive sum of the words picked by the version's bits, each a multiple of the generator 0x1F25. */
  function VersionSum(ver: bv32): bv32 {
    ((ver & 1) * 0x1F25) ^ (((ver >> 1) & 1) * 0x216F) ^ (((ver >> 2) & 1) * 0x42DE)
    ^ (((ver >> 3) & 1) * 0x85BC) ^ (((ver >> 4) & 1) * 0x10B78) ^ (((ver >> 5) & 1) * 0x209D5)
  }

  function LongXor(a: bv32, b: bv32): bv32 {
    a ^ b
  }

  function VersionSteps(d: bv32): bv32 {
    VersionRemStep(VersionRemStep(VersionRemStep(VersionRemStep(d))))
  }

  lemma FourVersionSteps(ver: bv32, i: nat)
    requires ver < 64
    ensures VersionRem(ver, i + 4) == VersionSteps(VersionRem(ver, i))
  {
    hide VersionRemStep;
    assert VersionRem(ver, i + 1) == VersionRemStep(VersionRem(ver, i));
    assert VersionRem(ver, i + 2) == VersionRemStep(VersionRem(ver, i + 1));
    assert VersionRem(ver, i + 3) == VersionRemStep(VersionRem(ver, i + 2));
    assert VersionRem(ver, i + 4) == VersionRemStep(VersionRem(ver, i + 3));
  }

  lemma VersionStepsAre(ver: bv32)
    requires ver < 64
    ensures VersionJoin(ver, VersionSteps(VersionSteps(VersionSteps(ver)))) == VersionSum(ver)
  {
  }

  lemma VersionWordIs(ver: bv32)
    requires ver < 64
    ensures VersionWord(ver) == VersionSum(ver)
  {
    hide VersionSteps, VersionSum, VersionJoin, VersionRemStep;
    FourVersionSteps(ver, 0);
    FourVersionSteps(ver, 4);
    FourVersionSteps(ver, 8);
    VersionStepsAre(ver);
  }

  function LongOnes(w: bv32): bv32 {
    (w & 1) + ((w >> 1) & 1) + ((w >> 2) & 1) + ((w >> 3) & 1) + ((w >> 4) & 1) + ((w >> 5) & 1) + ((w >> 6) & 1)
    + ((w >> 7) & 1) + ((w >> 8) & 1) + ((w >> 9) & 1) + ((w >> 10) & 1) + ((w >> 11) & 1) + ((w >> 12) & 1)
    + ((w >> 13) & 1) + ((w >> 14) & 1) + ((w >> 15) & 1) + ((w >> 16) & 1) + ((w >> 17) & 1)
  }

  lemma HeavyVersionSum(d: bv32)
    requires 0 < d < 64
    ensures LongOnes(VersionSum(d)) >= 8
  {
  }

  /** Any two version words differ in at least eight places. */
  lemma VersionWordsFarApart(a: bv32, b: bv32)
    requires a < 64 && b < 64 && a != b
    ensures LongOnes(LongXor(VersionWord(a), VersionWord(b))) >= 8
  {
    hide VersionWord, LongOnes, VersionSum, LongXor;
    VersionWordIs(a);
    VersionWordIs(b);
    VersionSumsAdd(a, b);
    HeavyVersionSum(LongXor(a, b));
  }

  lemma VersionSumsAdd(a: bv32, b: bv32)
    requires a < 64 && b < 64 && a != b
    ensures 0 < LongXor(a, b) < 64 && LongXor(VersionSum(a), VersionSum(b)) == VersionSum(LongXor(a, b))
  {
  }
}
