/** The Estonian personal identity code (isikukood): a century-and-gender digit, the birth date
    as yymmdd, a three-digit serial and a two-stage mod-11 check digit (est/isikukood.js). */
module EstIsikukood {

  import opened Common

  /** REGEXP: a century digit 1..8, yy, a month 00..19, a day 00..39, a serial and the check
      digit. */
  predicate Format(s: string) {
    |s| == 11 && AllDigits(s) && '1' <= s[0] <= '8' && s[3] <= '1' && s[5] <= '3'
  }

  const Weights1: seq<int> := [1, 2, 3, 4, 5, 6, 7, 8, 9, 1]
  const Weights2: seq<int> := [3, 4, 5, 6, 7, 8, 9, 1, 2, 3]

  /** The check digit of the first ten digits: the first-pass remainder if it is below 10, else
      the second-pass remainder if that is below 10, else 0. */
  function CheckDigit(ds: seq<Digit>): (c: Digit)
    requires |ds| == 10
    ensures WeightedSum(ds, Weights1, 10) % 11 < 10 ==> (WeightedSum(ds, Weights1, 10) - c) % 11 == 0
    ensures WeightedSum(ds, Weights1, 10) % 11 == 10 && WeightedSum(ds, Weights2, 10) % 11 < 10 ==>
      (WeightedSum(ds, Weights2, 10) - c) % 11 == 0
    ensures WeightedSum(ds, Weights1, 10) % 11 == 10 && WeightedSum(ds, Weights2, 10) % 11 == 10 ==> c == 0
  {
    WeightedSumNonnegative(ds, Weights1, 10);
    WeightedSumNonnegative(ds, Weights2, 10);
    var r1 := WeightedSum(ds, Weights1, 10) % 11;
    if r1 < 10 then r1
    else
      var r2 := WeightedSum(ds, Weights2, 10) % 11;
      if r2 < 10 then r2 else 0
  }

  /** What `checksum` decides: the format holds and the last digit is the check digit. */
  predicate HasValidCheckDigit(s: string) {
    Format(s) && DigitValue(s[10]) == CheckDigit(Digits(s[..10]))
  }

  /** `checksum(idNumber)`: the two passes over the weights, each accumulating `sum`. */
  method Checksum(idNumber: string) returns (ok: bool)
    ensures ok <==> HasValidCheckDigit(idNumber)
  {
    if !Format(idNumber) {
      return false;
    }
    var digits := Digits(idNumber[..10]);
    var checkDigit := DigitValue(idNumber[10]);
    var sum: int := 0;
    var i := 0;
    while i < 10
      invariant 0 <= i <= 10
      invariant sum == WeightedSum(digits, Weights1, i)
    {
      sum := sum + digits[i] * Weights1[i];
      i := i + 1;
    }
    var remainder := sum % 11;
    if remainder < 10 {
      return remainder == checkDigit;
    }
    sum := 0;
    i := 0;
    while i < 10
      invariant 0 <= i <= 10
      invariant sum == WeightedSum(digits, Weights2, i)
    {
      sum := sum + digits[i] * Weights2[i];
      i := i + 1;
    }
    remainder := sum % 11;
    if remainder < 10 {
      return remainder == checkDigit;
    }
    return checkDigit == 0;
  }

  /** Exactly one final digit completes ten well-formed leading digits to a valid code. */
  lemma CheckDigitCompletes(body: string, c: char)
    requires |body| == 10 && AllDigits(body) && '1' <= body[0] <= '8' && body[3] <= '1' && body[5] <= '3'
    requires IsDigit(c)
    ensures HasValidCheckDigit(body + [c]) <==> DigitValue(c) == CheckDigit(Digits(body))
  {
    assert (body + [c])[..10] == body;
  }

  /** `getCentury(centuryDigit)`. */
  function Century(centuryDigit: int): (r: Option<int>)
    ensures r.Some? <==> 1 <= centuryDigit <= 8
  {
    match centuryDigit
    case 1 => Some(1800)
    case 2 => Some(1800)
    case 3 => Some(1900)
    case 4 => Some(1900)
    case 5 => Some(2000)
    case 6 => Some(2000)
    case 7 => Some(2100)
    case 8 => Some(2100)
    case _ => None
  }

  /** `getGender(centuryDigit)`: even digits are female, odd ones male. */
  function GenderOf(centuryDigit: int): (g: Gender)
    ensures 1 <= centuryDigit <= 8 ==> (g == Male <==> centuryDigit in {1, 3, 5, 7})
  {
    if centuryDigit % 2 == 0 then Female else Male
  }

  /** The century digit of a century from 1800 to 2100 and a gender. */
  function CenturyDigit(century: int, gender: Gender): (d: int)
    requires century in {1800, 1900, 2000, 2100}
    ensures 1 <= d <= 8 && Century(d) == Some(century) && GenderOf(d) == gender
  {
    2 * ((century - 1800) / 100) + (if gender == Female then 2 else 1)
  }

  /** The century digit encodes century and gender one to one: decoding inverts encoding, and
      every digit 1..8 is the encoding of what it decodes to. */
  lemma CenturyDigitRoundTrip(century: int, gender: Gender, d: int)
    requires century in {1800, 1900, 2000, 2100}
    ensures Century(CenturyDigit(century, gender)) == Some(century)
    ensures GenderOf(CenturyDigit(century, gender)) == gender
    ensures 1 <= d <= 8 ==> CenturyDigit(Century(d).value, GenderOf(d)) == d
  {
  }

  /** What `parse` returns. */
  datatype Isikukood = Isikukood(number: string, gender: Gender, birthDate: string, year: int,
                                 month: int, day: int)

  /** `parse(idNumber)`: None unless the checksum holds and the month is 1..12 and the day
      1..31; the year is the century plus yy. */
  function Parse(s: string): (r: Option<Isikukood>)
    ensures r.Some? <==>
      HasValidCheckDigit(s) && 1 <= Decimal(s[3..5]) <= 12 && 1 <= Decimal(s[5..7]) <= 31
    ensures r.Some? ==>
      && r.value.number == s
      && r.value.gender == (if DigitValue(s[0]) % 2 == 0 then Female else Male)
      && Century(DigitValue(s[0])).Some?
      && r.value.year == Century(DigitValue(s[0])).value + Decimal(s[1..3])
      && 1800 <= r.value.year <= 2199
      && r.value.month == Decimal(s[3..5]) && r.value.day == Decimal(s[5..7])
  {
    if !HasValidCheckDigit(s) then None
    else
      var centuryDigit := DigitValue(s[0]);
      match Century(centuryDigit)
      case None => None
      case Some(century) =>
        var actualYear := century + Decimal(s[1..3]);
        var actualMonth := Decimal(s[3..5]);
        var actualDay := Decimal(s[5..7]);
        if actualMonth < 1 || actualMonth > 12 || actualDay < 1 || actualDay > 31 then None
        else
          Some(Isikukood(s, GenderOf(centuryDigit), BirthDateString(actualYear, actualMonth, actualDay),
                         actualYear, actualMonth, actualDay))
  }

  /** The birth date text of a parsed code spells out its year, month and day. */
  lemma ParseBirthDate(s: string)
    requires Parse(s).Some?
    ensures var b := Parse(s).value.birthDate;
      |b| == 10 && Decimal(b[..4]) == Parse(s).value.year
      && Decimal(b[5..7]) == Parse(s).value.month && Decimal(b[8..]) == Parse(s).value.day
  {
    var r := Parse(s).value;
    BirthDateStringReadsBack(r.year, r.month, r.day);
  }

  /** `validate(idNumber)`. */
  predicate Validate(s: string)
    ensures Validate(s) <==>
      HasValidCheckDigit(s) && 1 <= Decimal(s[3..5]) <= 12 && 1 <= Decimal(s[5..7]) <= 31
  {
    Format(s) && Parse(s).Some?
  }

  /** The check of a code through the values of its first ten digits and their check digit. */
  lemma ValidByDigits(s: string, ds: seq<Digit>, c: int)
    requires Format(s) && Digits(s[..10]) == ds && CheckDigit(ds) == c
    ensures HasValidCheckDigit(s) <==> DigitValue(s[10]) == c
  {
  }

  lemma DigitsOf3900101000()
    ensures Format("39001010000") && Format("39001010002")
    ensures Digits("39001010000"[..10]) == [3, 9, 0, 0, 1, 0, 1, 0, 0, 0]
    ensures Digits("39001010002"[..10]) == [3, 9, 0, 0, 1, 0, 1, 0, 0, 0]
    ensures DigitValue("39001010000"[10]) == 0 && DigitValue("39001010002"[10]) == 2
  {
  }

  lemma SumOf3900101000()
    ensures WeightedSum([3, 9, 0, 0, 1, 0, 1, 0, 0, 0], Weights1, 10) == 33
  {
  }

  /** est.test.js lists '39001010002' as valid, but the weights give 33, remainder 0: the check
      digit is 0, so the code as written rejects it and accepts '39001010000' instead. */
  lemma CheckDigitOf3900101000()
    ensures CheckDigit([3, 9, 0, 0, 1, 0, 1, 0, 0, 0]) == 0
    ensures HasValidCheckDigit("39001010000")
    ensures !HasValidCheckDigit("39001010002")
  {
    DigitsOf3900101000();
    SumOf3900101000();
    ValidByDigits("39001010000", [3, 9, 0, 0, 1, 0, 1, 0, 0, 0], 0);
    ValidByDigits("39001010002", [3, 9, 0, 0, 1, 0, 1, 0, 0, 0], 0);
  }

  lemma DigitsOf3900101023()
    ensures Digits("39001010238")[..10] == [3, 9, 0, 0, 1, 0, 1, 0, 2, 3]
  {
  }

  lemma FirstSumOf3900101023()
    ensures WeightedSum([3, 9, 0, 0, 1, 0, 1, 0, 2, 3], Weights1, 10) == 54
  {
  }

  lemma SecondSumOf3900101023()
    ensures WeightedSum([3, 9, 0, 0, 1, 0, 1, 0, 2, 3], Weights2, 10) == 74
  {
  }

  /** '3900101023' takes the second pass: 54 leaves remainder 10, and the second weights give
      74, remainder 8. */
  lemma SecondPassExample()
    ensures HasValidCheckDigit("39001010238")
  {
    DigitsOf3900101023();
    FirstSumOf3900101023();
    SecondSumOf3900101023();
  }

  lemma DigitsOf3900101059()
    ensures Digits("39001010590")[..10] == [3, 9, 0, 0, 1, 0, 1, 0, 5, 9]
  {
  }

  lemma FirstSumOf3900101059()
    ensures WeightedSum([3, 9, 0, 0, 1, 0, 1, 0, 5, 9], Weights1, 10) == 87
  {
  }

  lemma SecondSumOf3900101059()
    ensures WeightedSum([3, 9, 0, 0, 1, 0, 1, 0, 5, 9], Weights2, 10) == 98
  {
  }

  /** '3900101059' leaves remainder 10 in both passes (87 and 98), so its check digit is 0. */
  lemma ThirdStageExample()
    ensures HasValidCheckDigit("39001010590")
  {
    DigitsOf3900101059();
    FirstSumOf3900101059();
    SecondSumOf3900101059();
  }

  /** '39001010000' parses to a male born on 1990-01-01. */
  lemma ParseExample()
    ensures Parse("39001010000").Some?
    ensures Parse("39001010000").value.gender == Male
    ensures Parse("39001010000").value.year == 1990
    ensures Parse("39001010000").value.birthDate == "1990-01-01"
  {
    CheckDigitOf3900101000();
    FieldsOf39001010000();
  }

  lemma FieldsOf39001010000()
    ensures "39001010000"[1..3] == "90" && Decimal("90") == 90
    ensures "39001010000"[3..5] == "01" && Decimal("01") == 1
    ensures "39001010000"[5..7] == "01"
    ensures BirthDateString(1990, 1, 1) == "1990-01-01"
  {
    assert DecimalPrefix("90", 2) == 90 && DecimalPrefix("01", 2) == 1;
    assert NatString(1990) == "1990";
  }
}
