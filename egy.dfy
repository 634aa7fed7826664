/** The Egyptian national ID number: a century digit, the birth date as yymmdd, a governorate
    code, a four-digit serial whose last digit gives the gender, and a Luhn check digit
    (egy/national_id.js). */
module EgyNationalId {

  import opened Common
  import opened NationalIdUtil
  import Calendar

  /** REGEXP: a century digit 2 or 3 and thirteen more digits. */
  predicate Format(s: string) {
    |s| == 14 && AllDigits(s) && (s[0] == '2' || s[0] == '3')
  }

  /** `checksum(idNumber)`: the Luhn digit of the first thirteen digits, or None (null) when the
      format does not hold; it is the one digit that brings their Luhn total to a multiple of 10. */
  function Checksum(s: string): (r: Option<Digit>)
    ensures r.Some? <==> Format(s)
    ensures r.Some? ==> (LuhnTotal(Digits(s[..13]), false) + r.value) % 10 == 0
  {
    if !Format(s) then None else Some(LuhnDigit(Digits(s[..13]), false))
  }

  /** The last digit matches the checksum exactly when it completes the Luhn total. */
  lemma ChecksumMeaning(s: string)
    requires Format(s)
    ensures Checksum(s) == Some(DigitValue(s[13])) <==>
      (LuhnTotal(Digits(s[..13]), false) + DigitValue(s[13])) % 10 == 0
  {
    if (LuhnTotal(Digits(s[..13]), false) + DigitValue(s[13])) % 10 == 0 {
      LuhnDigitUnique(Digits(s[..13]), false, DigitValue(s[13]));
    }
  }

  /** `yyyy`: the century digit 2 stands for the 1900s, 3 for the 2000s. */
  function BirthYear(s: string): (y: int)
    requires Format(s)
    ensures 1900 <= y <= 2099
    ensures s[0] == '2' <==> y < 2000
    ensures y % 100 == Decimal(s[1..3])
  {
    (if s[0] == '2' then 1900 else 2000) + Decimal(s[1..3])
  }

  /** What `parse` returns. */
  datatype EgyptianId = EgyptianId(birthDate: Calendar.Date, governorate: string, sn: string,
                                   gender: Gender, checksum: Digit)

  /** `parse(idNumber)`: None unless the format holds, the birth date exists and the last digit
      is the checksum; the gender is male iff the last serial digit is odd. */
  function Parse(s: string): (r: Option<EgyptianId>)
    ensures r.Some? <==>
      Format(s) && Calendar.IsValidDate(Calendar.Date(BirthYear(s), Decimal(s[3..5]), Decimal(s[5..7])))
      && (LuhnTotal(Digits(s[..13]), false) + DigitValue(s[13])) % 10 == 0
    ensures r.Some? ==>
      && r.value.birthDate == Calendar.Date(BirthYear(s), Decimal(s[3..5]), Decimal(s[5..7]))
      && r.value.governorate == s[7..9] && r.value.sn == s[9..13]
      && (r.value.gender == Male <==> DigitValue(s[12]) % 2 == 1)
      && r.value.checksum == DigitValue(s[13])
  {
    if !Format(s) then None
    else
      var yyyy := BirthYear(s);
      var mm := Decimal(s[3..5]);
      var dd := Decimal(s[5..7]);
      if !Calendar.UtcRoundTrips(yyyy, mm, dd) then None
      else
        var sn := s[9..13];
        var checksum := Checksum(s);
        ChecksumMeaning(s);
        if checksum.None? || checksum.value != DigitValue(s[13]) then None
        else
          Some(EgyptianId(Calendar.Date(yyyy, mm, dd), s[7..9], sn,
                          if DigitValue(sn[3]) % 2 == 1 then Male else Female, checksum.value))
  }

  /** `validate(idNumber)`. */
  predicate Validate(s: string)
    ensures Validate(s) <==>
      Format(s) && Calendar.IsValidDate(Calendar.Date(BirthYear(s), Decimal(s[3..5]), Decimal(s[5..7])))
      && (LuhnTotal(Digits(s[..13]), false) + DigitValue(s[13])) % 10 == 0
  {
    Format(s) && Parse(s).Some?
  }

  // ---------------------------------------------------------------------------------------
  // Examples from egy.test.js

  const ValidSample: string := "29001010100015"
  const WrongSample: string := "29001010100014"

  lemma DigitsOfSamples()
    ensures Format(ValidSample) && Format(WrongSample)
    ensures Digits(ValidSample[..13]) == [2, 9, 0, 0, 1, 0, 1, 0, 1, 0, 0, 0, 1]
    ensures ValidSample[..13] == WrongSample[..13]
    ensures ValidSample[13] == '5' && WrongSample[13] == '4'
  {
  }

  lemma LuhnTotalOf2900101010001(ds: seq<Digit>)
    requires ds == [2, 9, 0, 0, 1, 0, 1, 0, 1, 0, 0, 0, 1]
    ensures LuhnTotal(ds, false) == 15
  {
    assert LuhnSum([2, 9, 0, 0, 1, 0, 1, 0, 1, 0, 0, 0, 1], 0, 6) == 2 + 9 + 0 + 0 + 1 + 0;
    assert LuhnSum([2, 9, 0, 0, 1, 0, 1, 0, 1, 0, 0, 0, 1], 0, 13) == 12 + 1 + 0 + 1 + 0 + 0 + 0 + 1;
  }

  /** The Luhn total of '2900101010001' is 15 (the 9 doubles to 18, counted as 9), so the check
      digit is 5: '…15' passes and '…14' does not. */
  lemma ChecksumExamples()
    ensures Checksum(ValidSample) == Some(5)
    ensures Checksum(WrongSample) != Some(4)
  {
    DigitsOfSamples();
    LuhnTotalOf2900101010001(Digits(ValidSample[..13]));
  }

  lemma FieldsOfValidSample()
    ensures Format(ValidSample) && BirthYear(ValidSample) == 1990
    ensures Decimal(ValidSample[3..5]) == 1 && Decimal(ValidSample[5..7]) == 1
    ensures ValidSample[7..9] == "01" && ValidSample[9..13] == "0001" && ValidSample[12] == '1'
  {
    assert ValidSample[1..3] == "90" && DecimalPrefix("90", 2) == 90;
    assert ValidSample[3..5] == "01" && ValidSample[5..7] == "01" && DecimalPrefix("01", 2) == 1;
  }

  /** '29001010100015' is a man born on 1990-01-01 in governorate '01', serial '0001', with
      checksum 5. */
  lemma ParseExample()
    ensures Parse(ValidSample) == Some(EgyptianId(Calendar.Date(1990, 1, 1), "01", "0001", Male, 5))
  {
    FieldsOfValidSample();
    ChecksumExamples();
    assert DigitValue(ValidSample[13]) == 5;
    assert Calendar.UtcRoundTrips(1990, 1, 1);
  }
}
