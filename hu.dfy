/** The Hungarian personal identification number (személyi szám) as this library reads it:
    yymmdd where the month field also carries gender and century, a serial and a weighted
    mod-10 check digit (hu/szemelyi_szam.js). */
module HuSzemelyiSzam {

  import opened Common

  /** REGEXP: eleven digits. */
  predicate Format(s: string) {
    |s| == 11 && AllDigits(s)
  }

  const Weights: seq<int> := [1, 2, 3, 4, 5, 6, 7, 8, 9, 10]

  /** `remainder === 0 ? 0 : 10 - remainder`: the digit that brings the sum to a multiple of
      ten. */
  function CheckDigitFor(sum: int): (c: int)
    ensures 0 <= c <= 9 && (sum + c) % 10 == 0
  {
    ModComplement(sum, 10);
    var remainder := sum % 10;
    if remainder == 0 then 0 else 10 - remainder
  }

  /** No other digit brings the sum to a multiple of ten. */
  lemma CheckDigitForUnique(sum: int, c: int)
    requires 0 <= c <= 9 && (sum + c) % 10 == 0
    ensures c == CheckDigitFor(sum)
  {
    var q := sum / 10;
    assert sum == 10 * q + sum % 10;
    assert (sum + c) % 10 == (sum % 10 + c) % 10;
  }

  /** What `checksum` decides. */
  predicate HasValidCheckDigit(s: string) {
    Format(s) && Digits(s)[10] == CheckDigitFor(WeightedSum(Digits(s), Weights, 10))
  }

  /** A code passes iff its weighted sum plus its last digit is a multiple of ten. */
  lemma CheckDigitMeaning(s: string)
    requires Format(s)
    ensures HasValidCheckDigit(s) <==> (WeightedSum(Digits(s), Weights, 10) + Digits(s)[10]) % 10 == 0
  {
    var sum := WeightedSum(Digits(s), Weights, 10);
    if (sum + Digits(s)[10]) % 10 == 0 {
      CheckDigitForUnique(sum, Digits(s)[10]);
    }
  }

  /** `checksum(idNumber)`. */
  method Checksum(idNumber: string) returns (ok: bool)
    ensures ok <==> HasValidCheckDigit(idNumber)
  {
    if !Format(idNumber) {
      return false;
    }
    var digits := KeepDigits(idNumber);
    if |digits| != 11 {
      return false;
    }
    var d := Digits(digits);
    var sum: int := 0;
    var i := 0;
    while i < 10
      invariant 0 <= i <= 10
      invariant sum == WeightedSum(d, Weights, i)
    {
      sum := sum + d[i] * Weights[i];
      i := i + 1;
    }
    var remainder := sum % 10;
    var checkDigit := if remainder == 0 then 0 else 10 - remainder;
    return checkDigit == d[10];
  }

  /** The `if` chain on the month field: 21..32 is the 1900s (month minus 20), 1..12 the 2000s,
      41..52 the 1900s (month minus 40); a second test of 21..32 follows, and any other month
      is kept as it is, in the 1900s. */
  function BirthMonthYear(month: int, yy: int): (r: (int, int))
    ensures (1 <= month <= 12 || 21 <= month <= 32 || 41 <= month <= 52) ==>
      1 <= r.0 <= 12 && month - r.0 in {0, 20, 40}
    ensures r.1 == 2000 + yy <==> 1 <= month <= 12
    ensures r.1 == 1900 + yy || r.1 == 2000 + yy
  {
    if 21 <= month <= 32 then (month - 20, 1900 + yy)
    else if 1 <= month <= 12 then (month, 2000 + yy)
    else if 41 <= month <= 52 then (month - 40, 1900 + yy)
    else if 21 <= month <= 32 then (month - 20, 2000 + yy)
    else (month, 1900 + yy)
  }

  /** `gender`: women's months are 41..52 and 21..32. */
  function GenderOfMonth(month: int): (g: Gender)
    ensures g == Female ==> month - BirthMonthYear(month, 0).0 in {20, 40}
    ensures g == Male ==> month - BirthMonthYear(month, 0).0 == 0
  {
    if (41 <= month <= 52) || (21 <= month <= 32) then Female else Male
  }

  /** The second 21..32 branch is never taken: only months 1..12 give the 2000s, and every
      month in the three ranges comes out as 1..12. */
  lemma SecondBranchUnreachable(month: int, yy: int)
    ensures BirthMonthYear(month, yy).1 == 2000 + yy <==> 1 <= month <= 12
    ensures (1 <= month <= 12 || 21 <= month <= 32 || 41 <= month <= 52) ==>
      1 <= BirthMonthYear(month, yy).0 <= 12
    ensures !(1 <= month <= 12 || 21 <= month <= 32 || 41 <= month <= 52) ==>
      BirthMonthYear(month, yy) == (month, 1900 + yy)
  {
  }

  /** Women of the 2000s have no month field of their own: whatever the field, a woman is
      assigned the 1900s. */
  lemma NoWomenOfThe2000s(month: int, yy: int)
    requires GenderOfMonth(month) == Female
    ensures BirthMonthYear(month, yy).1 == 1900 + yy
  {
  }

  /** What `parse` returns. */
  datatype SzemelyiSzam = SzemelyiSzam(number: string, gender: Gender, birthDate: string, year: int,
                                       month: int, day: int)

  /** `parse(idNumber)`: None unless the checksum holds; the date and gender come from the
      month field. */
  function Parse(s: string): (r: Option<SzemelyiSzam>)
    ensures r.Some? <==> HasValidCheckDigit(s)
    ensures r.Some? ==>
      && r.value.number == s
      && (r.value.month, r.value.year) == BirthMonthYear(Decimal(s[2..4]), Decimal(s[..2]))
      && r.value.gender == GenderOfMonth(Decimal(s[2..4]))
      && r.value.day == Decimal(s[4..6])
      && r.value.birthDate == BirthDateString(r.value.year, r.value.month, r.value.day)
  {
    if !HasValidCheckDigit(s) then None
    else
      var year := Decimal(s[..2]);
      var month := Decimal(s[2..4]);
      var day := Decimal(s[4..6]);
      var (actualMonth, actualYear) := BirthMonthYear(month, year);
      Some(SzemelyiSzam(s, GenderOfMonth(month), BirthDateString(actualYear, actualMonth, day),
                        actualYear, actualMonth, day))
  }

  /** `validate(idNumber)`. */
  predicate Validate(s: string)
    ensures Validate(s) <==> Format(s) && HasValidCheckDigit(s)
  {
    Format(s) && Parse(s).Some?
  }

  lemma Sum12345678905()
    ensures Digits("12345678905") == [1, 2, 3, 4, 5, 6, 7, 8, 9, 0, 5]
    ensures WeightedSum([1, 2, 3, 4, 5, 6, 7, 8, 9, 0, 5], Weights, 10) == 285
  {
  }

  lemma Sum98765432105()
    ensures Digits("98765432105") == [9, 8, 7, 6, 5, 4, 3, 2, 1, 0, 5]
    ensures WeightedSum([9, 8, 7, 6, 5, 4, 3, 2, 1, 0, 5], Weights, 10) == 165
  {
  }

  lemma Sum12345678900()
    ensures Digits("12345678900") == [1, 2, 3, 4, 5, 6, 7, 8, 9, 0, 0]
    ensures WeightedSum([1, 2, 3, 4, 5, 6, 7, 8, 9, 0, 0], Weights, 10) == 285
  {
  }

  /** hu.test.js: '12345678905' (285, check 5) and '98765432105' (165, check 5) pass;
      '12345678900' fails. */
  lemma ChecksumExamples()
    ensures HasValidCheckDigit("12345678905")
    ensures HasValidCheckDigit("98765432105")
    ensures !HasValidCheckDigit("12345678900")
  {
    Sum12345678905();
    Sum98765432105();
    Sum12345678900();
  }

  lemma FieldsOf12345678905()
    ensures "12345678905"[..2] == "12" && Decimal("12") == 12
    ensures "12345678905"[2..4] == "34" && Decimal("34") == 34
  {
    assert DecimalPrefix("12", 2) == 12 && DecimalPrefix("34", 2) == 34;
  }

  /** '12345678905' has month field 34, in no range: a man, month 34 of 1912. */
  lemma ParseExample()
    ensures Parse("12345678905").Some?
    ensures Parse("12345678905").value.gender == Male
    ensures Parse("12345678905").value.year == 1912
    ensures Parse("12345678905").value.month == 34
  {
    ChecksumExamples();
    FieldsOf12345678905();
  }
}
