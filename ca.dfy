/** The Canadian Social Insurance Number (SIN): nine digits written 'ddd-ddd-ddd' that pass the
    Luhn test, with the all-equal numbers and the prefixes 000, 666 and 9xx excluded
    (ca/social_insurance.js). */
module CaSocialInsurance {

  import opened Common
  import opened NationalIdUtil

  /** REGEXP: three groups of three digits joined by '-'. */
  predicate Format(s: string) {
    |s| == 11 && AllDigits(s[0..3]) && s[3] == '-' && AllDigits(s[4..7]) && s[7] == '-'
    && AllDigits(s[8..11])
  }

  /** The digits of a well-formed number: what `replace(/\D/g, '')` leaves. */
  lemma FormatDigits(s: string)
    requires Format(s)
    ensures KeepDigits(s) == s[0..3] + s[4..7] + s[8..11]
  {
    assert s[4..] == s[4..7] + [s[7]] + s[8..11];
    assert s == s[0..3] + [s[3]] + s[4..];
    KeepDigitsSeparated(s[4..7], s[7], s[8..11]);
    KeepDigitsSeparated(s[0..3], s[3], s[4..]);
    assert AllDigits(s[8..11]);
    AppendAssociative(s[0..3], s[4..7], s[8..11]);
  }

  /** The prefixes no SIN is issued with: '000', '666' and '9' followed by two digits. */
  predicate ExcludedPrefix(d: string)
    requires |d| >= 3 && AllDigits(d[..3])
  {
    d[..3] == "000" || d[..3] == "666" || d[0] == '9'
  }

  /** `checksum(idNumber)`, on any string: the digits it contains are nine, not all equal, without
      an excluded prefix, and their Luhn check digit is 0. */
  predicate Checksum(s: string)
    ensures Checksum(s) <==>
      var d := KeepDigits(s);
      |d| == 9 && !AllSame(d) && !ExcludedPrefix(d) && LuhnTotal(Digits(d), false) % 10 == 0
  {
    var digits := KeepDigits(s);
    |digits| == 9 && !AllSame(digits) && !ExcludedPrefix(digits)
    && (assert LuhnDigit(Digits(digits), false) == 0 <==> LuhnTotal(Digits(digits), false) % 10 == 0;
        LuhnDigit(Digits(digits), false) == 0)
  }

  /** The Luhn condition on nine digits says that the ninth is the Luhn check digit of the first
      eight, which is the only digit completing their total to a multiple of 10. */
  lemma ChecksumMeaning(s: string)
    ensures var d := KeepDigits(s);
      Checksum(s) <==>
        |d| == 9 && !AllSame(d) && !ExcludedPrefix(d)
        && DigitValue(d[8]) == LuhnDigit(Digits(d[..8]), false)
  {
    var d := KeepDigits(s);
    if |d| == 9 {
      assert Digits(d) == Digits(d[..8]) + [DigitValue(d[8])];
      LuhnAppend(Digits(d[..8]), DigitValue(d[8]));
    }
  }

  /** On a well-formed number the check reads the three groups; a Luhn check digit of 0 is a
      Luhn total that is a multiple of 10. */
  lemma ChecksumOfFormat(s: string)
    requires Format(s)
    ensures KeepDigits(s) == s[0..3] + s[4..7] + s[8..11]
    ensures var d := s[0..3] + s[4..7] + s[8..11];
      Checksum(s) <==> !AllSame(d) && !ExcludedPrefix(d) && LuhnTotal(Digits(d), false) % 10 == 0
  {
    FormatDigits(s);
    var d := s[0..3] + s[4..7] + s[8..11];
    var t := LuhnTotal(Digits(d), false);
    assert LuhnDigit(Digits(d), false) == 0 <==> t % 10 == 0;
  }

  /** What `parse` returns (the gender is always UNKNOWN and is not modelled). */
  datatype Sin = Sin(area: string, group: string, serial: string)

  /** `parse(idNumber)`: None unless the format holds, the digits are not all equal, the prefix is
      not excluded and the Luhn test passes; the three groups are returned as written. */
  function Parse(s: string): (r: Option<Sin>)
    ensures r.Some? <==> Format(s) && Checksum(s)
    ensures r.Some? ==>
      var d := s[0..3] + s[4..7] + s[8..11];
      && !AllSame(d) && !ExcludedPrefix(d) && LuhnTotal(Digits(d), false) % 10 == 0
      && r.value == Sin(s[0..3], s[4..7], s[8..11])
  {
    if !Format(s) then None
    else
      ChecksumOfFormat(s);
      var digits := KeepDigits(s);
      if AllSame(digits) then None
      else if ExcludedPrefix(digits) then None
      else if !Checksum(s) then None
      else Some(Sin(s[0..3], s[4..7], s[8..11]))
  }

  /** `validate(idNumber)`. */
  predicate Validate(s: string)
    ensures Validate(s) <==>
      Format(s) && var d := s[0..3] + s[4..7] + s[8..11];
      !AllSame(d) && !ExcludedPrefix(d) && LuhnTotal(Digits(d), false) % 10 == 0
  {
    Format(s) && (ChecksumOfFormat(s); Parse(s).Some?)
  }

  // ---------------------------------------------------------------------------------------
  // Examples from ca.test.js

  /** The check of a well-formed number through its digits and their Luhn total. */
  lemma ValidByDigits(s: string, d: string, ds: seq<Digit>, total: nat)
    requires Format(s) && d == s[0..3] + s[4..7] + s[8..11]
    requires Digits(d) == ds && LuhnSum(ds, 0, 9) == total
    ensures Checksum(s) <==> !AllSame(d) && !ExcludedPrefix(d) && total % 10 == 0
    ensures Validate(s) <==> Checksum(s)
  {
    FormatDigits(s);
  }

  const Sample1: string := "130-692-544"
  const Sample2: string := "046-454-286"
  const Wrong1: string := "123-456-781"
  const Wrong2: string := "123-456-783"
  const Digits1: string := "130692544"
  const Digits2: string := "046454286"
  const WrongDigits1: string := "123456781"
  const WrongDigits2: string := "123456783"

  lemma GroupsOfSample1()
    ensures Format(Sample1) && Sample1[0..3] + Sample1[4..7] + Sample1[8..11] == Digits1
    ensures Sample1[0..3] == "130" && Sample1[4..7] == "692" && Sample1[8..11] == "544"
  {
    assert Sample1[0..3] == "130" && Sample1[4..7] == "692" && Sample1[8..11] == "544";
    assert "130" + "692" + "544" == Digits1;
  }

  lemma GroupsOfSample2()
    ensures Format(Sample2) && Sample2[0..3] + Sample2[4..7] + Sample2[8..11] == Digits2
  {
    assert Sample2[0..3] == "046" && Sample2[4..7] == "454" && Sample2[8..11] == "286";
    assert "046" + "454" + "286" == Digits2;
  }

  lemma GroupsOfWrong()
    ensures Format(Wrong1) && Wrong1[0..3] + Wrong1[4..7] + Wrong1[8..11] == WrongDigits1
    ensures Format(Wrong2) && Wrong2[0..3] + Wrong2[4..7] + Wrong2[8..11] == WrongDigits2
  {
    assert Wrong1[0..3] == "123" && Wrong1[4..7] == "456" && Wrong1[8..11] == "781";
    assert "123" + "456" + "781" == WrongDigits1;
    assert Wrong2[0..3] == "123" && Wrong2[4..7] == "456" && Wrong2[8..11] == "783";
    assert "123" + "456" + "783" == WrongDigits2;
  }

  lemma GuardsOfSamples()
    ensures Digits(Digits1) == [1, 3, 0, 6, 9, 2, 5, 4, 4]
    ensures !AllSame(Digits1) && !ExcludedPrefix(Digits1)
    ensures Digits(Digits2) == [0, 4, 6, 4, 5, 4, 2, 8, 6]
    ensures !AllSame(Digits2) && !ExcludedPrefix(Digits2)
  {
    assert Digits1[1] != Digits1[0] && Digits2[1] != Digits2[0];
  }

  lemma DigitsOfWrong()
    ensures Digits(WrongDigits1) == [1, 2, 3, 4, 5, 6, 7, 8, 1]
    ensures Digits(WrongDigits2) == [1, 2, 3, 4, 5, 6, 7, 8, 3]
  {
  }

  lemma TotalOf130692544(ds: seq<Digit>)
    requires ds == [1, 3, 0, 6, 9, 2, 5, 4, 4]
    ensures LuhnSum(ds, 0, 9) == 40
  {
    assert LuhnSum([1, 3, 0, 6, 9, 2, 5, 4, 4], 0, 9) == 40;
  }

  lemma TotalOf046454286(ds: seq<Digit>)
    requires ds == [0, 4, 6, 4, 5, 4, 2, 8, 6]
    ensures LuhnSum(ds, 0, 9) == 50
  {
    assert LuhnSum([0, 4, 6, 4, 5, 4, 2, 8, 6], 0, 9) == 50;
  }

  lemma TotalOf123456781(ds: seq<Digit>)
    requires ds == [1, 2, 3, 4, 5, 6, 7, 8, 1]
    ensures LuhnSum(ds, 0, 9) == 39
  {
    assert LuhnSum([1, 2, 3, 4, 5, 6, 7, 8, 1], 0, 9) == 39;
  }

  lemma TotalOf123456783(ds: seq<Digit>)
    requires ds == [1, 2, 3, 4, 5, 6, 7, 8, 3]
    ensures LuhnSum(ds, 0, 9) == 41
  {
    assert LuhnSum([1, 2, 3, 4, 5, 6, 7, 8, 3], 0, 9) == 41;
  }

  lemma TotalOfZeros(ds: seq<Digit>)
    requires ds == [0, 0, 0, 0, 0, 0, 0, 0, 0]
    ensures LuhnSum(ds, 0, 9) == 0
  {
    assert LuhnSum([0, 0, 0, 0, 0, 0, 0, 0, 0], 0, 9) == 0;
  }

  /** '130-692-544' (Luhn total 40) parses to area '130', group '692' and serial '544'. */
  lemma ParseExample()
    ensures Parse(Sample1) == Some(Sin("130", "692", "544"))
  {
    GroupsOfSample1();
    GuardsOfSamples();
    TotalOf130692544([1, 3, 0, 6, 9, 2, 5, 4, 4]);
    ValidByDigits(Sample1, Digits1, [1, 3, 0, 6, 9, 2, 5, 4, 4], 40);
  }

  /** '046-454-286' has the Luhn total 50. */
  lemma SecondExample()
    ensures Validate(Sample2)
  {
    GroupsOfSample2();
    GuardsOfSamples();
    TotalOf046454286([0, 4, 6, 4, 5, 4, 2, 8, 6]);
    ValidByDigits(Sample2, Digits2, [0, 4, 6, 4, 5, 4, 2, 8, 6], 50);
  }

  lemma WrongCheckDigit1()
    ensures !Checksum(Wrong1) && !Validate(Wrong1)
  {
    GroupsOfWrong();
    DigitsOfWrong();
    TotalOf123456781([1, 2, 3, 4, 5, 6, 7, 8, 1]);
    ValidByDigits(Wrong1, WrongDigits1, [1, 2, 3, 4, 5, 6, 7, 8, 1], 39);
  }

  lemma WrongCheckDigit2()
    ensures !Checksum(Wrong2) && !Validate(Wrong2)
  {
    GroupsOfWrong();
    DigitsOfWrong();
    TotalOf123456783([1, 2, 3, 4, 5, 6, 7, 8, 3]);
    ValidByDigits(Wrong2, WrongDigits2, [1, 2, 3, 4, 5, 6, 7, 8, 3], 41);
  }

  /** '123-456-781' and '123-456-783' have the Luhn totals 39 and 41. */
  lemma WrongCheckDigitExamples()
    ensures !Checksum(Wrong1) && !Checksum(Wrong2)
    ensures !Validate(Wrong1) && !Validate(Wrong2)
  {
    WrongCheckDigit1();
    WrongCheckDigit2();
  }

  const Zeros: string := "000-000-000"
  const ZeroDigits: string := "000000000"

  lemma GroupsOfZeros()
    ensures Format(Zeros) && Zeros[0..3] + Zeros[4..7] + Zeros[8..11] == ZeroDigits
    ensures Digits(ZeroDigits) == [0, 0, 0, 0, 0, 0, 0, 0, 0] && AllSame(ZeroDigits)
  {
    assert Zeros[0..3] == "000" && Zeros[4..7] == "000" && Zeros[8..11] == "000";
    assert "000" + "000" + "000" == ZeroDigits;
  }

  /** '000-000-000' passes the Luhn test (its total is 0), so only the guards reject it. */
  lemma ZerosExample()
    ensures LuhnTotal(Digits(ZeroDigits), false) % 10 == 0
    ensures !Checksum(Zeros) && !Validate(Zeros)
  {
    GroupsOfZeros();
    TotalOfZeros(Digits(ZeroDigits));
    FormatDigits(Zeros);
  }

  /** Nine equal digits are rejected whatever the Luhn test says. */
  lemma RepdigitExample(d: char)
    requires IsDigit(d)
    ensures !Checksum([d, d, d, '-', d, d, d, '-', d, d, d])
  {
    var s := [d, d, d, '-', d, d, d, '-', d, d, d];
    assert Format(s);
    FormatDigits(s);
    assert s[0..3] + s[4..7] + s[8..11] == [d, d, d, d, d, d, d, d, d];
    assert AllSame([d, d, d, d, d, d, d, d, d]);
  }

  /** A number with an excluded prefix is rejected. */
  lemma PrefixRejected(s: string)
    requires Format(s) && (s[..3] == "000" || s[..3] == "666" || s[0] == '9')
    ensures !Checksum(s) && !Validate(s)
  {
    FormatDigits(s);
    var d := KeepDigits(s);
    assert d[..3] == s[..3];
  }

  const Devil: string := "666-666-666"
  const NineHundred: string := "900-000-000"

  /** '666-666-666' and '900-000-000' have excluded prefixes. */
  lemma PrefixExamples()
    ensures !Validate(Devil) && !Validate(NineHundred)
  {
    assert Format(Devil) && Devil[..3] == "666";
    assert Format(NineHundred) && NineHundred[0] == '9';
    PrefixRejected(Devil);
    PrefixRejected(NineHundred);
  }

  const Bare: string := "123456789"
  const Pairs: string := "12-34-56-78-9"
  const Dotted: string := "123.456.789"

  /** Without the dashes, or with other separators, the number does not have the format. */
  lemma FormatExamples()
    ensures !Validate(Bare) && !Validate(Pairs) && !Validate(Dotted)
  {
    assert |Bare| == 9 && Pairs[3] != '-' && Dotted[3] != '-';
  }
}
