/** The Latvian personal code (personas kods): the birth date as ddmmyy, an optional dash, a
    century digit, a gender digit, a serial digit and a weighted mod-11 check digit
    (lva/personas_kods.js). */
module LvaPersonasKods {

  import opened Common

  /** Eleven digits. */
  predicate Undashed(t: string) {
    |t| == 11 && AllDigits(t)
  }

  /** REGEXP: six digits, an optional dash and five digits. */
  predicate Format(s: string) {
    Undashed(s) || (|s| == 12 && AllDigits(s[..6]) && s[6] == '-' && AllDigits(s[7..]))
  }

  /** `idNumber.replace('-', '')`: the code without its dash. */
  function Clean(s: string): (t: string)
    ensures Format(s) ==> Undashed(t)
    ensures Format(s) && |s| == 11 ==> t == s
    ensures Format(s) && |s| == 12 ==> t == s[..6] + s[7..]
  {
    if !Format(s) then ReplaceFirst(s, '-')
    else if |s| == 11 then
      DigitsHaveNoDash(s);
      ReplaceFirst(s, '-')
    else
      DigitsHaveNoDash(s[..6]);
      ReplaceFirstAt(s, '-', 6);
      ReplaceFirst(s, '-')
  }

  const Weights: seq<int> := [1, 6, 3, 7, 9, 10, 5, 8, 4, 2]

  /** `remainder === 1 ? 1 : (11 - remainder) % 10`: the digit that makes the sum a multiple of
      11, except that remainders 0 and 1 both give 1. */
  function CheckDigitFor(sum: int): (c: int)
    ensures 0 <= c <= 9
    ensures sum % 11 >= 2 ==> (sum + c) % 11 == 0
    ensures sum % 11 < 2 ==> c == 1
  {
    ModComplement(sum, 11);
    var remainder := sum % 11;
    if remainder == 1 then 1 else (11 - remainder) % 10
  }

  /** What `checksum` decides for any string: once its first dash is removed it is eleven
      digits whose last is the check digit. A character that is not a digit makes `parseInt`
      give NaN, and a NaN sum or check digit compares equal to nothing. */
  predicate HasValidCheckDigit(s: string) {
    var t := Clean(s);
    Undashed(t) && Digits(t)[10] == CheckDigitFor(WeightedSum(Digits(t), Weights, 10))
  }

  /** `checksum(idNumber)`. */
  method Checksum(idNumber: string) returns (ok: bool)
    ensures ok <==> HasValidCheckDigit(idNumber)
  {
    var cleanId := Clean(idNumber);
    if |cleanId| != 11 {
      return false;
    }
    if !AllDigits(cleanId) {
      return false;
    }
    var digits := Digits(cleanId);
    var sum: int := 0;
    var i := 0;
    while i < 10
      invariant 0 <= i <= 10
      invariant sum == WeightedSum(digits, Weights, i)
    {
      sum := sum + digits[i] * Weights[i];
      i := i + 1;
    }
    var remainder := sum % 11;
    var checkDigit := if remainder == 1 then 1 else (11 - remainder) % 10;
    return checkDigit == digits[10];
  }

  /** The dash is optional: a code with it and without it clean to the same digits and get
      the same verdict. */
  lemma DashIsOptional(t: string)
    requires Undashed(t)
    ensures Format(t[..6] + "-" + t[6..])
    ensures Clean(t[..6] + "-" + t[6..]) == t
    ensures HasValidCheckDigit(t[..6] + "-" + t[6..]) <==> HasValidCheckDigit(t)
  {
    var s := t[..6] + "-" + t[6..];
    assert s[..6] == t[..6] && s[7..] == t[6..];
    assert t[..6] + t[6..] == t;
  }

  /** The century of the first serial digit: 0 is the 1800s, 1 the 1900s, 2 the 2000s. */
  function Century(centuryDigit: int): (r: Option<int>)
    ensures r.Some? <==> 0 <= centuryDigit <= 2
    ensures r.Some? ==> r.value == 1800 + 100 * centuryDigit
  {
    if centuryDigit == 0 then Some(1800)
    else if centuryDigit == 1 then Some(1900)
    else if centuryDigit == 2 then Some(2000)
    else None
  }

  /** What `parse` returns. */
  datatype PersonasKods = PersonasKods(number: string, gender: Gender, birthDate: string, year: int,
                                       month: int, day: int)

  /** `parse(idNumber)`: None unless the format and the checksum hold, the month is 1..12, the
      day 1..31 and the century digit 0..2; an even second serial digit is female; the number
      is returned without its dash. */
  function Parse(s: string): (r: Option<PersonasKods>)
    ensures r.Some? <==>
      && Format(s) && HasValidCheckDigit(s)
      && 1 <= Decimal(Clean(s)[2..4]) <= 12 && 1 <= Decimal(Clean(s)[..2]) <= 31
      && Clean(s)[6] <= '2'
    ensures r.Some? ==>
      var t := Clean(s);
      && r.value.number == t && Undashed(t)
      && r.value.year == 1800 + 100 * DigitValue(t[6]) + Decimal(t[4..6])
      && (r.value.gender == Female <==> DigitValue(t[7]) % 2 == 0)
      && r.value.month == Decimal(t[2..4]) && r.value.day == Decimal(t[..2])
      && r.value.birthDate == BirthDateString(r.value.year, r.value.month, r.value.day)
  {
    if !Format(s) then None
    else
      var cleanId := Clean(s);
      if !HasValidCheckDigit(cleanId) then None
      else
        var day := Decimal(cleanId[..2]);
        var month := Decimal(cleanId[2..4]);
        var year := Decimal(cleanId[4..6]);
        if month < 1 || month > 12 || day < 1 || day > 31 then None
        else
          match Century(DigitValue(cleanId[6]))
          case None => None
          case Some(century) =>
            var actualYear := century + year;
            var gender := if DigitValue(cleanId[7]) % 2 == 0 then Female else Male;
            Some(PersonasKods(cleanId, gender, BirthDateString(actualYear, month, day), actualYear,
                              month, day))
  }

  /** `validate(idNumber)`. */
  predicate Validate(s: string)
    ensures Validate(s) <==>
      && Format(s) && HasValidCheckDigit(s)
      && 1 <= Decimal(Clean(s)[2..4]) <= 12 && 1 <= Decimal(Clean(s)[..2]) <= 31
      && Clean(s)[6] <= '2'
  {
    Format(s) && Parse(s).Some?
  }

  /** An eleven-digit code passes iff its last digit is the check digit of its weighted sum. */
  lemma ValidByDigits(t: string, ds: seq<Digit>, sum: int)
    requires Undashed(t) && Digits(t) == ds && WeightedSum(ds, Weights, 10) == sum
    ensures HasValidCheckDigit(t) <==> ds[10] == CheckDigitFor(sum)
  {
    DigitsHaveNoDash(t);
  }

  lemma DigitsOf01019012348()
    ensures Undashed("01019012348") && Digits("01019012348") == [0, 1, 0, 1, 9, 0, 1, 2, 3, 4, 8]
  {
  }

  lemma DigitsOf01019012345()
    ensures Undashed("01019012345") && Digits("01019012345") == [0, 1, 0, 1, 9, 0, 1, 2, 3, 4, 5]
  {
  }

  lemma SumOf01019012348()
    ensures WeightedSum([0, 1, 0, 1, 9, 0, 1, 2, 3, 4, 8], Weights, 10) == 135
  {
    assert WeightedSum([0, 1, 0, 1, 9, 0, 1, 2, 3, 4, 8], Weights, 5) == 94;
  }

  lemma SumOf01019012345()
    ensures WeightedSum([0, 1, 0, 1, 9, 0, 1, 2, 3, 4, 5], Weights, 10) == 135
  {
    assert WeightedSum([0, 1, 0, 1, 9, 0, 1, 2, 3, 4, 5], Weights, 5) == 94;
  }

  lemma CheckDigitFor135()
    ensures CheckDigitFor(135) == 8
  {
  }

  /** '01019012348' passes: its sum is 135, remainder 3, check 8. */
  lemma ValidExample()
    ensures HasValidCheckDigit("01019012348")
  {
    DigitsOf01019012348();
    SumOf01019012348();
    CheckDigitFor135();
    ValidByDigits("01019012348", [0, 1, 0, 1, 9, 0, 1, 2, 3, 4, 8], 135);
  }

  /** lva.test.js lists '010190-12345' as valid; the code as written rejects it. */
  lemma RejectedTestVector()
    ensures !HasValidCheckDigit("01019012345")
  {
    DigitsOf01019012345();
    SumOf01019012345();
    CheckDigitFor135();
    ValidByDigits("01019012345", [0, 1, 0, 1, 9, 0, 1, 2, 3, 4, 5], 135);
  }

  lemma FieldsOf01019012348()
    ensures "01019012348"[..2] == "01" && Decimal("01") == 1
    ensures "01019012348"[2..4] == "01"
    ensures "01019012348"[4..6] == "90" && Decimal("90") == 90
    ensures "01019012348"[6] == '1' && "01019012348"[7] == '2'
  {
    assert DecimalPrefix("90", 2) == 90 && DecimalPrefix("01", 2) == 1;
  }

  /** '01019012348' is a woman born in 1990 (second serial digit 2 is even). */
  lemma ParseExample()
    ensures Parse("01019012348").Some?
    ensures Parse("01019012348").value.gender == Female
    ensures Parse("01019012348").value.year == 1990
  {
    ValidExample();
    DigitsOf01019012348();
    FieldsOf01019012348();
    var t := "01019012348";
    assert Clean(t) == t;
  }
}
