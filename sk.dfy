/** The Slovak birth number (rodné číslo), as this library reads it: yymmdd where the month field
    also carries gender and century, a serial and a mod-11 check digit (sk/rodne_cislo.js). */
module SkRodneCislo {

  import opened Common

  /** REGEXP: ten digits. */
  predicate Format(s: string) {
    |s| == 10 && AllDigits(s)
  }

  const Weights: seq<int> := [1, 2, 3, 4, 5, 6, 7, 8, 9, 10]

  /** `remainder < 2 ? remainder : 11 - remainder`: the digit that makes the sum a multiple of
      11, except that remainders 0 and 1 stand for themselves. */
  function CheckDigitFor(sum: int): (c: int)
    ensures 0 <= c <= 9
    ensures sum % 11 >= 2 ==> (sum + c) % 11 == 0
    ensures sum % 11 < 2 ==> c == sum % 11
  {
    ModComplement(sum, 11);
    var remainder := sum % 11;
    if remainder < 2 then remainder else 11 - remainder
  }

  /** What `checksum` decides. */
  predicate HasValidCheckDigit(s: string) {
    Format(s) && Digits(s)[9] == CheckDigitFor(WeightedSum(Digits(s), Weights, 9))
  }

  /** `checksum(idNumber)`. */
  method Checksum(idNumber: string) returns (ok: bool)
    ensures ok <==> HasValidCheckDigit(idNumber)
  {
    if !Format(idNumber) {
      return false;
    }
    var digits := KeepDigits(idNumber);
    if |digits| != 10 {
      return false;
    }
    var d := Digits(digits);
    var sum: int := 0;
    var i := 0;
    while i < 9
      invariant 0 <= i <= 9
      invariant sum == WeightedSum(d, Weights, i)
    {
      sum := sum + d[i] * Weights[i];
      i := i + 1;
    }
    var remainder := sum % 11;
    var checkDigit := if remainder < 2 then remainder else 11 - remainder;
    return checkDigit == d[9];
  }

  /** The decoded month field. */
  datatype BirthMonth = BirthMonth(century: int, month: int, gender: Gender)

  /** The `if` chain on the month field: 51..62 are women of the 2000s (month minus 50), 1..12
      men of the 1900s, 21..32 women of the 2000s (month minus 20); anything else is
      rejected. */
  function DecodeMonth(raw: int): (r: Option<BirthMonth>)
    ensures r.Some? <==> 1 <= raw <= 12 || 21 <= raw <= 32 || 51 <= raw <= 62
    ensures r.Some? ==> 1 <= r.value.month <= 12 && raw - r.value.month in {0, 20, 50}
    ensures r.Some? ==> (r.value.gender == Male <==> r.value.century == 1900)
    ensures r.Some? ==> (r.value.century == 2000 <==> raw > 12)
  {
    if 51 <= raw <= 62 then Some(BirthMonth(2000, raw - 50, Female))
    else if 1 <= raw <= 12 then Some(BirthMonth(1900, raw, Male))
    else if 21 <= raw <= 32 then Some(BirthMonth(2000, raw - 20, Female))
    else None
  }

  /** Month m + 20 and month m + 50 decode alike, and no month field gives a woman of the
      1900s or a man of the 2000s. */
  lemma DecodeMonthAmbiguous(m: int, raw: int)
    requires 1 <= m <= 12
    ensures DecodeMonth(m + 20) == DecodeMonth(m + 50) == Some(BirthMonth(2000, m, Female))
    ensures DecodeMonth(m) == Some(BirthMonth(1900, m, Male))
    ensures DecodeMonth(raw) != Some(BirthMonth(1900, m, Female))
    ensures DecodeMonth(raw) != Some(BirthMonth(2000, m, Male))
  {
  }

  /** What `parse` returns. */
  datatype RodneCislo = RodneCislo(number: string, gender: Gender, birthDate: string, year: int,
                                   month: int, day: int)

  /** `parse(idNumber)`: None unless the checksum holds and the month field is in one of the
      three ranges. */
  function Parse(s: string): (r: Option<RodneCislo>)
    ensures r.Some? <==> HasValidCheckDigit(s) && DecodeMonth(Decimal(s[2..4])).Some?
    ensures r.Some? ==>
      var b := DecodeMonth(Decimal(s[2..4])).value;
      && r.value.number == s
      && r.value.year == b.century + Decimal(s[..2])
      && r.value.month == b.month && r.value.gender == b.gender
      && r.value.day == Decimal(s[4..6])
      && r.value.birthDate == BirthDateString(r.value.year, r.value.month, r.value.day)
  {
    if !HasValidCheckDigit(s) then None
    else
      var year := Decimal(s[..2]);
      var month := Decimal(s[2..4]);
      var day := Decimal(s[4..6]);
      match DecodeMonth(month)
      case None => None
      case Some(b) =>
        var actualYear := b.century + year;
        Some(RodneCislo(s, b.gender, BirthDateString(actualYear, b.month, day), actualYear,
                        b.month, day))
  }

  /** `validate(idNumber)`. */
  predicate Validate(s: string)
    ensures Validate(s) <==> Format(s) && HasValidCheckDigit(s) && DecodeMonth(Decimal(s[2..4])).Some?
  {
    Format(s) && Parse(s).Some?
  }

  lemma Sum1204156785()
    ensures Digits("1204156785") == [1, 2, 0, 4, 1, 5, 6, 7, 8, 5]
    ensures WeightedSum([1, 2, 0, 4, 1, 5, 6, 7, 8, 5], Weights, 9) == 226
  {
  }

  lemma Sum9856012341()
    ensures Digits("9856012341") == [9, 8, 5, 6, 0, 1, 2, 3, 4, 1]
    ensures WeightedSum([9, 8, 5, 6, 0, 1, 2, 3, 4, 1], Weights, 9) == 144
  {
  }

  lemma Sum1111111110()
    ensures Digits("1111111110") == [1, 1, 1, 1, 1, 1, 1, 1, 1, 0]
    ensures WeightedSum([1, 1, 1, 1, 1, 1, 1, 1, 1, 0], Weights, 9) == 45
  {
  }

  /** sk.test.js: '1204156785' (226, remainder 6, check 5) and '9856012341' (144, remainder 1)
      pass; '1111111110' (45, remainder 1) fails. */
  lemma ChecksumExamples()
    ensures HasValidCheckDigit("1204156785")
    ensures HasValidCheckDigit("9856012341")
    ensures !HasValidCheckDigit("1111111110")
  {
    Sum1204156785();
    Sum9856012341();
    Sum1111111110();
  }

  lemma FieldsOf9856012341()
    ensures "9856012341"[..2] == "98" && Decimal("98") == 98
    ensures "9856012341"[2..4] == "56" && Decimal("56") == 56
  {
    assert DecimalPrefix("98", 2) == 98 && DecimalPrefix("56", 2) == 56;
  }

  /** '9856012341' has month field 56: a woman born in June 2098. */
  lemma ParseExample()
    ensures Parse("9856012341").Some?
    ensures Parse("9856012341").value.gender == Female
    ensures Parse("9856012341").value.year == 2098
    ensures Parse("9856012341").value.month == 6
  {
    ChecksumExamples();
    FieldsOf9856012341();
  }

  lemma FieldsOf1234567891()
    ensures "1234567891"[2..4] == "34" && Decimal("34") == 34
  {
    assert DecimalPrefix("34", 2) == 34;
  }

  /** '1234567891' passes the checksum (285, remainder 10, check 1) but its month field 34 is
      in no range, so it does not parse. */
  lemma ChecksumWithoutDate()
    ensures HasValidCheckDigit("1234567891")
    ensures Parse("1234567891") == None
  {
    assert Digits("1234567891") == [1, 2, 3, 4, 5, 6, 7, 8, 9, 1];
    assert WeightedSum([1, 2, 3, 4, 5, 6, 7, 8, 9, 1], Weights, 9) == 285;
    FieldsOf1234567891();
  }
}
