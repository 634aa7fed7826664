/** The Luxembourg national number: a birth date as yyyymmdd, a three-digit serial whose parity
    gives the gender, and two check digits making 97 minus the first eleven digits modulo 97
    (lux/national_number.js). */
module LuxNationalNumber {

  import opened Common

  /** REGEXP: thirteen digits, captured as year, month, day, serial and check digits. */
  predicate Format(s: string) {
    |s| == 13 && AllDigits(s)
  }

  /** The first eleven digits as a number. */
  function Base(s: string): nat
    requires Format(s)
  {
    Decimal(s[..11])
  }

  /** The expected check number 97 - b % 97 is the one number in 1..97 completing b to a
      multiple of 97. */
  lemma ExpectedCheckMeaning(b: nat, c: int)
    ensures 97 - b % 97 == c <==> 1 <= c <= 97 && (b + c) % 97 == 0
  {
    ModComplement(b, 97);
    if 1 <= c <= 97 && (b + c) % 97 == 0 {
      var e := 97 - b % 97;
      ModCancel(b, 97, c % 97, e % 97);
      if c == 97 || e == 97 {
        assert c % 97 == e % 97;
      }
    }
  }

  /** `checksum(idNumber)`: the format holds and the check digits spell 97 minus the base number
      modulo 97, a number in 1..97 that completes the base to a multiple of 97. */
  function Checksum(s: string): (ok: bool)
    ensures ok <==> Format(s) && (Base(s) + Decimal(s[11..])) % 97 == 0 && 1 <= Decimal(s[11..]) <= 97
  {
    if !Format(s) then false
    else
      var remainder := Base(s) % 97;
      var expectedCheck := 97 - remainder;
      ExpectedCheckMeaning(Base(s), Decimal(s[11..]));
      expectedCheck == Decimal(s[11..])
  }

  /** Check digits 00, 98 and 99 never pass. */
  lemma OutOfRangeChecksRejected(s: string)
    requires Format(s) && (Decimal(s[11..]) == 0 || Decimal(s[11..]) >= 98)
    ensures !Checksum(s)
  {
  }

  /** The base digits admit exactly one pair of check digits. */
  lemma CheckDigitsUnique(s: string, t: string)
    requires Checksum(s) && Checksum(t) && s[..11] == t[..11]
    ensures Decimal(s[11..]) == Decimal(t[11..])
  {
    var c, e := Decimal(s[11..]), Decimal(t[11..]);
    assert c % 97 == e % 97 by {
      ModCancel(Base(s), 97, c % 97, e % 97);
    }
  }

  /** What `parse` returns. */
  datatype LuxNationalId = LuxNationalId(number: string, gender: Gender, birthDate: string,
                                         year: nat, month: nat, day: nat, serial: string)

  /** `parse(idNumber)`: None unless the checksum passes and the month is 1..12 and the day
      1..31 (the day is not checked against the month); female iff the serial is even. */
  function Parse(s: string): (r: Option<LuxNationalId>)
    ensures r.Some? <==>
      Checksum(s) && 1 <= Decimal(s[4..6]) <= 12 && 1 <= Decimal(s[6..8]) <= 31
    ensures r.Some? ==>
      && r.value.number == s && r.value.serial == s[8..11]
      && r.value.year == Decimal(s[..4]) && r.value.month == Decimal(s[4..6])
      && r.value.day == Decimal(s[6..8])
      && r.value.birthDate == BirthDateString(r.value.year, r.value.month, r.value.day)
      && (r.value.gender == Female <==> Decimal(s[8..11]) % 2 == 0)
  {
    if !Format(s) || !Checksum(s) then None
    else
      var actualMonth := Decimal(s[4..6]);
      var actualDay := Decimal(s[6..8]);
      if actualMonth < 1 || actualMonth > 12 || actualDay < 1 || actualDay > 31 then None
      else Some(Decode(s))
  }

  /** The fields of a well-formed number. */
  function Decode(s: string): (r: LuxNationalId)
    requires Format(s)
    ensures r.number == s && r.serial == s[8..11]
    ensures r.year == Decimal(s[..4]) && r.month == Decimal(s[4..6]) && r.day == Decimal(s[6..8])
    ensures r.birthDate == BirthDateString(r.year, r.month, r.day)
    ensures r.gender == Female <==> Decimal(s[8..11]) % 2 == 0
  {
    var actualYear := Decimal(s[..4]);
    var actualMonth := Decimal(s[4..6]);
    var actualDay := Decimal(s[6..8]);
    var birthDate := BirthDateString(actualYear, actualMonth, actualDay);
    var serialNum := Decimal(s[8..11]);
    var gender := if serialNum % 2 == 0 then Female else Male;
    LuxNationalId(s, gender, birthDate, actualYear, actualMonth, actualDay, s[8..11])
  }

  /** For years from 1000 on, the birth date text spells the year, month and day that parse
      returns. */
  lemma BirthDateOfParse(s: string)
    requires Parse(s).Some? && Parse(s).value.year >= 1000
    ensures var b := Parse(s).value.birthDate;
      && |b| == 10 && b[4] == '-' && b[7] == '-' && AllDigits(b[..4]) && AllDigits(b[5..7])
      && AllDigits(b[8..])
      && Decimal(b[..4]) == Decimal(s[..4]) && Decimal(b[5..7]) == Decimal(s[4..6])
      && Decimal(b[8..]) == Decimal(s[6..8])
  {
    assert Decimal(s[..4]) < 10000 by {
      DecimalBound(s[..4]);
    }
    BirthDateStringReadsBack(Parse(s).value.year, Parse(s).value.month, Parse(s).value.day);
  }

  /** k digits spell a number below 10^k. */
  lemma {:induction false} DecimalBound(t: string)
    requires AllDigits(t)
    ensures Decimal(t) < Pow10(|t|)
    decreases |t|
  {
    if |t| > 0 {
      var u := t[..|t| - 1];
      assert t == u + [t[|t| - 1]];
      DecimalAppend(u, t[|t| - 1]);
      DecimalBound(u);
    }
  }

  /** `validate(idNumber)`. */
  predicate Validate(s: string)
    ensures Validate(s) <==>
      Checksum(s) && 1 <= Decimal(s[4..6]) <= 12 && 1 <= Decimal(s[6..8]) <= 31
  {
    Format(s) && Parse(s).Some?
  }

  // ---------------------------------------------------------------------------------------
  // Examples

  /** A number the code accepts: 19900101001 leaves 41 modulo 97, so the check is 56. */
  const ValidSample: string := "1990010100156"
  /** lux.test.js lists it as valid, but its check 97 is not 56. */
  const TestSample: string := "1990010100197"
  /** An even serial: 19900102002 leaves 72, so the check is 25. */
  const FemaleSample: string := "1990010200225"
  /** Month 00 with a matching check: 19900001001 leaves 48. */
  const MonthZeroSample: string := "1990000100149"

  lemma DecimalOf19900101001(t: string)
    requires t == "19900101001"
    ensures Decimal(t) == 19900101001
  {
    assert DecimalPrefix(t, 1) == 1;
    assert DecimalPrefix(t, 2) == 19;
    assert DecimalPrefix(t, 3) == 199;
    assert DecimalPrefix(t, 4) == 1990;
    assert DecimalPrefix(t, 5) == 19900;
    assert DecimalPrefix(t, 6) == 199001;
    assert DecimalPrefix(t, 7) == 1990010;
    assert DecimalPrefix(t, 8) == 19900101;
    assert DecimalPrefix(t, 9) == 199001010;
    assert DecimalPrefix(t, 10) == 1990010100;
    assert DecimalPrefix(t, 11) == 19900101001;
  }

  lemma DecimalOf19900102002(t: string)
    requires t == "19900102002"
    ensures Decimal(t) == 19900102002
  {
    assert DecimalPrefix(t, 1) == 1;
    assert DecimalPrefix(t, 2) == 19;
    assert DecimalPrefix(t, 3) == 199;
    assert DecimalPrefix(t, 4) == 1990;
    assert DecimalPrefix(t, 5) == 19900;
    assert DecimalPrefix(t, 6) == 199001;
    assert DecimalPrefix(t, 7) == 1990010;
    assert DecimalPrefix(t, 8) == 19900102;
    assert DecimalPrefix(t, 9) == 199001020;
    assert DecimalPrefix(t, 10) == 1990010200;
    assert DecimalPrefix(t, 11) == 19900102002;
  }

  lemma DecimalOf19900001001(t: string)
    requires t == "19900001001"
    ensures Decimal(t) == 19900001001
  {
    assert DecimalPrefix(t, 1) == 1;
    assert DecimalPrefix(t, 2) == 19;
    assert DecimalPrefix(t, 3) == 199;
    assert DecimalPrefix(t, 4) == 1990;
    assert DecimalPrefix(t, 5) == 19900;
    assert DecimalPrefix(t, 6) == 199000;
    assert DecimalPrefix(t, 7) == 1990000;
    assert DecimalPrefix(t, 8) == 19900001;
    assert DecimalPrefix(t, 9) == 199000010;
    assert DecimalPrefix(t, 10) == 1990000100;
    assert DecimalPrefix(t, 11) == 19900001001;
  }

  lemma RemainderOf19900101001()
    ensures 19900101001 % 97 == 41
  {
  }

  lemma RemainderOf19900102002()
    ensures 19900102002 % 97 == 72
  {
  }

  lemma RemainderOf19900001001()
    ensures 19900001001 % 97 == 48
  {
  }

  /** The checksum through the base number and the check digits' value. */
  lemma ChecksumByValues(s: string, base: nat, check: nat, remainder: nat)
    requires Format(s) && Decimal(s[..11]) == base && Decimal(s[11..]) == check
    requires base % 97 == remainder
    ensures Checksum(s) <==> 97 - remainder == check
  {
  }

  lemma ChecksOfSamples()
    ensures Format(ValidSample) && Format(TestSample)
    ensures ValidSample[..11] == "19900101001" && TestSample[..11] == "19900101001"
    ensures Decimal(ValidSample[11..]) == 56 && Decimal(TestSample[11..]) == 97
  {
    assert ValidSample[11..] == "56" && DecimalPrefix("56", 2) == 56;
    assert TestSample[11..] == "97" && DecimalPrefix("97", 2) == 97;
  }

  lemma DateOfValidSample()
    ensures Decimal(ValidSample[..4]) == 1990 && ValidSample[8..11] == "001"
    ensures Decimal(ValidSample[4..6]) == 1 && Decimal(ValidSample[6..8]) == 1
    ensures Decimal(ValidSample[8..11]) == 1
  {
    assert ValidSample[..4] == "1990" && DecimalPrefix("1990", 4) == 1990;
    assert ValidSample[4..6] == "01";
    assert ValidSample[6..8] == "01";
    assert DecimalPrefix("01", 2) == 1;
    assert DecimalPrefix("001", 3) == 1;
  }

  /** '1990010100156' is a man born on 1990-01-01 with serial '001'. */
  lemma ParseExample()
    ensures Parse(ValidSample) ==
      Some(LuxNationalId(ValidSample, Male, BirthDateString(1990, 1, 1), 1990, 1, 1, "001"))
  {
    ChecksOfSamples();
    DateOfValidSample();
    DecimalOf19900101001(ValidSample[..11]);
    RemainderOf19900101001();
    ChecksumByValues(ValidSample, 19900101001, 56, 41);
  }

  /** The birth date text of the example is '1990-01-01'. */
  lemma BirthDateTextExample()
    ensures BirthDateString(1990, 1, 1) == "1990-01-01"
  {
    assert NatString(1990) == "1990" && NatString(1) == "1";
  }

  /** The test's '1990010100197' fails the checksum. */
  lemma RejectedTestVector()
    ensures !Checksum(TestSample) && !Validate(TestSample)
  {
    ChecksOfSamples();
    DecimalOf19900101001(TestSample[..11]);
    RemainderOf19900101001();
    ChecksumByValues(TestSample, 19900101001, 97, 41);
  }

  lemma ChecksOfFemaleSample()
    ensures Format(FemaleSample) && FemaleSample[..11] == "19900102002"
    ensures Decimal(FemaleSample[11..]) == 25
  {
    assert FemaleSample[11..] == "25" && DecimalPrefix("25", 2) == 25;
  }

  lemma DateOfFemaleSample()
    ensures Decimal(FemaleSample[4..6]) == 1 && Decimal(FemaleSample[6..8]) == 2
    ensures Decimal(FemaleSample[8..11]) == 2
  {
    assert FemaleSample[4..6] == "01";
    assert DecimalPrefix("01", 2) == 1;
    assert FemaleSample[6..8] == "02";
    assert DecimalPrefix("02", 2) == 2;
    assert FemaleSample[8..11] == "002";
    assert DecimalPrefix("002", 3) == 2;
  }

  /** '1990010200225' has the even serial '002': a woman. */
  lemma FemaleExample()
    ensures Parse(FemaleSample).Some? && Parse(FemaleSample).value.gender == Female
  {
    ChecksOfFemaleSample();
    DateOfFemaleSample();
    DecimalOf19900102002(FemaleSample[..11]);
    RemainderOf19900102002();
    ChecksumByValues(FemaleSample, 19900102002, 25, 72);
  }

  lemma FieldsOfMonthZeroSample()
    ensures Format(MonthZeroSample) && MonthZeroSample[..11] == "19900001001"
    ensures Decimal(MonthZeroSample[11..]) == 49 && Decimal(MonthZeroSample[4..6]) == 0
  {
    assert MonthZeroSample[11..] == "49" && DecimalPrefix("49", 2) == 49;
    assert MonthZeroSample[4..6] == "00" && DecimalPrefix("00", 2) == 0;
  }

  /** '1990000100149' passes the checksum, but month 00 is rejected. */
  lemma MonthZeroExample()
    ensures Checksum(MonthZeroSample) && !Validate(MonthZeroSample)
  {
    FieldsOfMonthZeroSample();
    DecimalOf19900001001(MonthZeroSample[..11]);
    RemainderOf19900001001();
    ChecksumByValues(MonthZeroSample, 19900001001, 49, 48);
  }

  const TooShort: string := "199001010019"
  const WithLetter: string := "199001a100197"
  const Dashed: string := "1990-01-01-001-97"

  /** Inputs that are not thirteen digits. */
  lemma FormatExamples()
    ensures !Validate(TooShort) && !Validate(WithLetter) && !Validate(Dashed) && !Validate("")
  {
    assert !IsDigit(WithLetter[6]);
  }
}
