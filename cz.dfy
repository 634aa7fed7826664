/** The Czech birth number (rodné číslo): yymmdd with the month shifted by 50 for women and by
    20 for the 2000s, a serial and a mod-11 check digit; nine-digit codes are checked as if
    they had a leading zero (cz/rodne_cislo.js). */
module CzRodneCislo {

  import opened Common

  /** REGEXP: nine or ten digits. */
  predicate Format(s: string) {
    (|s| == 9 || |s| == 10) && AllDigits(s)
  }

  /** `digits.length === 9 ? '0' + digits : digits`. */
  function Padded(s: string): (p: string)
    requires Format(s)
    ensures |p| == 10 && AllDigits(p)
    ensures |s| == 9 ==> p[1..] == s && p[0] == '0'
    ensures |s| == 10 ==> p == s
  {
    if |s| == 9 then "0" + s else s
  }

  const Weights: seq<int> := [1, 2, 3, 4, 5, 6, 7, 8, 9, 10]

  /** `remainder < 10 ? remainder : 0`: the remainder mod 11, with 10 shown as 0. */
  function CheckDigitFor(sum: int): (c: int)
    ensures 0 <= c <= 9
    ensures sum % 11 < 10 ==> (sum - c) % 11 == 0
    ensures sum % 11 == 10 ==> c == 0
  {
    var remainder := sum % 11;
    if remainder < 10 then remainder else 0
  }

  /** What `checksum` decides: the weights 1..9 over the first nine padded digits give the
      tenth. */
  predicate HasValidCheckDigit(s: string) {
    Format(s) &&
    var p := Digits(Padded(s));
    p[9] == CheckDigitFor(WeightedSum(p, Weights, 9))
  }

  /** `checksum(idNumber)`. */
  method Checksum(idNumber: string) returns (ok: bool)
    ensures ok <==> HasValidCheckDigit(idNumber)
  {
    if !Format(idNumber) {
      return false;
    }
    var digits := KeepDigits(idNumber);
    if |digits| < 9 || |digits| > 10 {
      return false;
    }
    var paddedDigits := if |digits| == 9 then "0" + digits else digits;
    assert paddedDigits == Padded(idNumber);
    var p := Digits(paddedDigits);
    var sum: int := 0;
    var i := 0;
    while i < 9
      invariant 0 <= i <= 9
      invariant sum == WeightedSum(p, Weights, i)
    {
      sum := sum + p[i] * Weights[i];
      i := i + 1;
    }
    var remainder := sum % 11;
    var checkDigit := if remainder < 10 then remainder else 0;
    assert checkDigit == CheckDigitFor(WeightedSum(p, Weights, 9));
    return checkDigit == p[9];
  }

  /** A nine-digit code and the same code with a leading zero get the same verdict. */
  lemma LeadingZeroIrrelevant(s: string)
    requires |s| == 9 && AllDigits(s)
    ensures Format("0" + s) && Padded("0" + s) == Padded(s)
    ensures HasValidCheckDigit("0" + s) <==> HasValidCheckDigit(s)
  {
  }

  /** The month and year that the raw month field stands for: 51..62 and 1..12 are the 1900s,
      21..32 and 71..82 the 2000s; any other month is kept as it is, in the 1900s. */
  function BirthMonthYear(month: int, yy: int): (r: (int, int))
    ensures (1 <= month <= 12 || 21 <= month <= 32 || 51 <= month <= 62 || 71 <= month <= 82) ==>
      1 <= r.0 <= 12 && month - r.0 in {0, 20, 50, 70}
    ensures r.1 == 2000 + yy <==> 21 <= month <= 32 || 71 <= month <= 82
    ensures r.1 == 1900 + yy || r.1 == 2000 + yy
  {
    if 51 <= month <= 62 then (month - 50, 1900 + yy)
    else if 1 <= month <= 12 then (month, 1900 + yy)
    else if 21 <= month <= 32 then (month - 20, 2000 + yy)
    else if 71 <= month <= 82 then (month - 70, 2000 + yy)
    else (month, 1900 + yy)
  }

  /** `gender`: women's months are 51..62 and 71..82. */
  function GenderOfMonth(month: int): (g: Gender)
    ensures g == Female ==> month - BirthMonthYear(month, 0).0 in {50, 70}
    ensures g == Male ==> month - BirthMonthYear(month, 0).0 in {0, 20}
  {
    if (51 <= month <= 62) || (71 <= month <= 82) then Female else Male
  }

  /** The month field of a month, a century and a gender. */
  function MonthCode(month: int, century: int, gender: Gender): int {
    month + (if gender == Female then 50 else 0) + (if century == 2000 then 20 else 0)
  }

  /** The month field encodes month, century and gender one to one: decoding inverts encoding,
      and every month field in the four ranges is the encoding of what it decodes to. */
  lemma MonthCodeRoundTrip(month: int, century: int, gender: Gender, yy: int, raw: int)
    requires 1 <= month <= 12 && century in {1900, 2000}
    ensures BirthMonthYear(MonthCode(month, century, gender), yy) == (month, century + yy)
    ensures GenderOfMonth(MonthCode(month, century, gender)) == gender
    ensures (1 <= raw <= 12 || 21 <= raw <= 32 || 51 <= raw <= 62 || 71 <= raw <= 82) ==>
      var (m, y) := BirthMonthYear(raw, yy);
      1 <= m <= 12 && MonthCode(m, y - yy, GenderOfMonth(raw)) == raw
  {
  }

  /** What `parse` returns. */
  datatype RodneCislo = RodneCislo(number: string, gender: Gender, birthDate: string, year: int,
                                   month: int, day: int)

  /** `parse(idNumber)`: None unless the checksum holds; the date and gender come from the
      first six characters as entered. */
  function Parse(s: string): (r: Option<RodneCislo>)
    ensures r.Some? <==> HasValidCheckDigit(s)
    ensures r.Some? ==>
      && r.value.number == s
      && (r.value.month, r.value.year) == BirthMonthYear(Decimal(s[2..4]), Decimal(s[..2]))
      && r.value.gender == GenderOfMonth(Decimal(s[2..4]))
      && r.value.day == Decimal(s[4..6])
      && r.value.birthDate == BirthDateString(r.value.year, r.value.month, r.value.day)
  {
    if !HasValidCheckDigit(s) then None
    else
      var year := Decimal(s[..2]);
      var month := Decimal(s[2..4]);
      var day := Decimal(s[4..6]);
      var (actualMonth, actualYear) := BirthMonthYear(month, year);
      Some(RodneCislo(s, GenderOfMonth(month), BirthDateString(actualYear, actualMonth, day),
                      actualYear, actualMonth, day))
  }

  /** `validate(idNumber)`. */
  predicate Validate(s: string)
    ensures Validate(s) <==> Format(s) && HasValidCheckDigit(s)
  {
    Format(s) && Parse(s).Some?
  }

  lemma Sum1234567890()
    ensures Digits("1234567890") == [1, 2, 3, 4, 5, 6, 7, 8, 9, 0]
    ensures WeightedSum([1, 2, 3, 4, 5, 6, 7, 8, 9, 0], Weights, 9) == 285
  {
  }

  lemma Sum9876543210()
    ensures Digits("9876543210") == [9, 8, 7, 6, 5, 4, 3, 2, 1, 0]
    ensures WeightedSum([9, 8, 7, 6, 5, 4, 3, 2, 1, 0], Weights, 9) == 165
  {
  }

  lemma Sum1111111110()
    ensures Digits("1111111110") == [1, 1, 1, 1, 1, 1, 1, 1, 1, 0]
    ensures WeightedSum([1, 1, 1, 1, 1, 1, 1, 1, 1, 0], Weights, 9) == 45
  {
  }

  /** cz.test.js: '1234567890' (285, remainder 10, check 0) and '9876543210' (165, remainder 0)
      pass; '1111111110' (45, remainder 1) fails. */
  lemma ChecksumExamples()
    ensures HasValidCheckDigit("1234567890")
    ensures HasValidCheckDigit("9876543210")
    ensures !HasValidCheckDigit("1111111110")
  {
    Sum1234567890();
    Sum9876543210();
    Sum1111111110();
  }

  lemma Sum123456789()
    ensures Digits("0123456789") == [0, 1, 2, 3, 4, 5, 6, 7, 8, 9]
    ensures WeightedSum([0, 1, 2, 3, 4, 5, 6, 7, 8, 9], Weights, 9) == 240
  {
  }

  /** '123456789' is checked as '0123456789': 240, remainder 9, check 9. */
  lemma NineDigitExample()
    ensures HasValidCheckDigit("123456789")
  {
    Sum123456789();
    assert Padded("123456789") == "0123456789";
  }

  lemma FieldsOf9876543210()
    ensures "9876543210"[..2] == "98" && Decimal("98") == 98
    ensures "9876543210"[2..4] == "76" && Decimal("76") == 76
    ensures "9876543210"[4..6] == "54" && Decimal("54") == 54
  {
    assert DecimalPrefix("98", 2) == 98 && DecimalPrefix("76", 2) == 76 && DecimalPrefix("54", 2) == 54;
  }

  /** What Parse reads from the date fields of a valid number. */
  lemma ParseOfFields(s: string, yy: nat, mm: nat)
    requires HasValidCheckDigit(s) && Decimal(s[..2]) == yy && Decimal(s[2..4]) == mm
    ensures Parse(s).Some? && Parse(s).value.gender == GenderOfMonth(mm)
    ensures (Parse(s).value.month, Parse(s).value.year) == BirthMonthYear(mm, yy)
  {
  }

  /** '9876543210' has month field 76: a woman born in June 2098. */
  lemma ParseExample()
    ensures Parse("9876543210").Some?
    ensures Parse("9876543210").value.gender == Female
    ensures Parse("9876543210").value.year == 2098
    ensures Parse("9876543210").value.month == 6
  {
    ChecksumExamples();
    FieldsOf9876543210();
    ParseOfFields("9876543210", 98, 76);
    assert GenderOfMonth(76) == Female && BirthMonthYear(76, 98) == (6, 2098);
  }
}
