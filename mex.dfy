/** The Mexican CURP (Clave Única de Registro de Población): four letters, the birth date as
    yymmdd, a gender letter, five letters and two digits, the last of which is a weighted mod-10
    check over the first seventeen characters (mex/curp.js). */
module MexCurp {

  import opened Common

  /** REGEXP: four upper-case letters, six digits, H or M, five upper-case letters, two digits. */
  predicate Format(s: string) {
    && |s| == 18
    && AllUpperLetters(s[..4]) && AllDigits(s[4..6]) && AllDigits(s[6..8]) && AllDigits(s[8..10])
    && s[10] in {'H', 'M'}
    && AllUpperLetters(s[11..16]) && AllDigits(s[16..])
  }

  /** `charValues[char] || 0`: digits are worth 0..9, upper-case letters A..Z 10..35, anything
      else 0. */
  function CharValue(c: char): (v: int)
    ensures 0 <= v <= 35
    ensures IsDigit(c) ==> v == DigitValue(c)
    ensures IsUpperLetter(c) ==> v == c as int - 'A' as int + 10
    ensures !IsDigit(c) && !IsUpperLetter(c) ==> v == 0
  {
    if IsDigit(c) then DigitValue(c)
    else if IsUpperLetter(c) then c as int - 'A' as int + 10
    else 0
  }

  /** Distinct characters of the CURP alphabet have distinct values. */
  lemma CharValueInjective(c: char, d: char)
    requires IsDigit(c) || IsUpperLetter(c)
    requires IsDigit(d) || IsUpperLetter(d)
    requires CharValue(c) == CharValue(d)
    ensures c == d
  {
  }

  /** The values of the characters of s. */
  function Values(s: string): (vs: seq<int>)
    ensures |vs| == |s| && forall i :: 0 <= i < |s| ==> vs[i] == CharValue(s[i])
  {
    seq(|s|, i requires 0 <= i < |s| => CharValue(s[i]))
  }

  /** The weight of position i is 18 - i. */
  const Weights: seq<int> := [18, 17, 16, 15, 14, 13, 12, 11, 10, 9, 8, 7, 6, 5, 4, 3, 2]

  /** `(10 - sum % 10) % 10`: the digit that brings the sum to a multiple of ten. */
  function CheckDigitFor(sum: int): (c: int)
    ensures 0 <= c <= 9 && (sum + c) % 10 == 0
  {
    ModComplement(sum, 10);
    (10 - sum % 10) % 10
  }

  /** No other digit brings the sum to a multiple of ten. */
  lemma CheckDigitForUnique(sum: int, c: int)
    requires 0 <= c <= 9 && (sum + c) % 10 == 0
    ensures c == CheckDigitFor(sum)
  {
    var q := sum / 10;
    assert sum == 10 * q + sum % 10;
    assert (sum + c) % 10 == (sum % 10 + c) % 10;
  }

  /** What `checksum` decides. */
  predicate HasValidCheckDigit(s: string) {
    Format(s) && DigitValue(s[17]) == CheckDigitFor(WeightedSum(Values(s[..17]), Weights, 17))
  }

  /** `checksum(idNumber)`: the loop over the first seventeen characters. */
  method Checksum(idNumber: string) returns (ok: bool)
    ensures ok <==> HasValidCheckDigit(idNumber)
  {
    if !Format(idNumber) {
      return false;
    }
    var baseId := idNumber[..17];
    var checkDigit := DigitValue(idNumber[17]);
    var sum: int := 0;
    var i := 0;
    while i < 17
      invariant 0 <= i <= 17
      invariant sum == WeightedSum(Values(baseId), Weights, i)
    {
      var value := CharValue(baseId[i]);
      sum := sum + value * (18 - i);
      i := i + 1;
    }
    var remainder := sum % 10;
    var expectedDigit := (10 - remainder) % 10;
    return expectedDigit == checkDigit;
  }

  /** Exactly one final digit completes a well-formed body of seventeen characters. */
  lemma CheckDigitCompletes(body: string, c: char)
    requires |body| == 17 && IsDigit(c) && Format(body + [c])
    ensures HasValidCheckDigit(body + [c]) <==>
            (WeightedSum(Values(body), Weights, 17) + DigitValue(c)) % 10 == 0
  {
    assert (body + [c])[..17] == body;
    var sum := WeightedSum(Values(body), Weights, 17);
    if (sum + DigitValue(c)) % 10 == 0 {
      CheckDigitForUnique(sum, DigitValue(c));
    }
  }

  /** The year of a two-digit yy: 00..30 are the 2000s, the rest the 1900s. */
  function CenturyYear(yy: int): (y: int)
    requires 0 <= yy <= 99
    ensures 1931 <= y <= 2030 && y % 100 == yy
    ensures y >= 2000 <==> yy <= 30
  {
    if 0 <= yy <= 30 then 2000 + yy else 1900 + yy
  }

  /** What `parse` returns. */
  datatype Curp = Curp(number: string, gender: Gender, birthDate: string, year: int, month: int,
                       day: int, stateCode: string, surnames: string)

  /** `parse(idNumber)`: None unless the checksum holds, the month is 1..12 and the day 1..31; H
      is male and M female; the five letters split into a state code and three surname
      letters. */
  function Parse(s: string): (r: Option<Curp>)
    ensures r.Some? <==>
      HasValidCheckDigit(s) && 1 <= Decimal(s[6..8]) <= 12 && 1 <= Decimal(s[8..10]) <= 31
    ensures r.Some? ==>
      && r.value.number == s
      && (r.value.gender == Male <==> s[10] == 'H')
      && r.value.year == CenturyYear(Decimal(s[4..6]))
      && r.value.month == Decimal(s[6..8]) && r.value.day == Decimal(s[8..10])
      && r.value.stateCode == s[11..13] && r.value.surnames == s[13..16]
      && r.value.stateCode + r.value.surnames == s[11..16]
  {
    if !HasValidCheckDigit(s) then None
    else
      var year := Decimal(s[4..6]);
      var month := Decimal(s[6..8]);
      var day := Decimal(s[8..10]);
      if month < 1 || month > 12 || day < 1 || day > 31 then None
      else
        var actualYear := CenturyYear(year);
        var gender := if s[10] == 'H' then Male else Female;
        assert s[11..13] + s[13..16] == s[11..16];
        Some(Curp(s, gender, BirthDateString(actualYear, month, day), actualYear, month, day,
                  s[11..13], s[13..16]))
  }

  /** `validate(idNumber)`. */
  predicate Validate(s: string)
    ensures Validate(s) <==>
      HasValidCheckDigit(s) && 1 <= Decimal(s[6..8]) <= 12 && 1 <= Decimal(s[8..10]) <= 31
  {
    Format(s) && Parse(s).Some?
  }

  lemma ValuesOfGabc()
    ensures Values("GABC900101HDFABC03"[..17])
         == [16, 10, 11, 12, 9, 0, 0, 1, 0, 1, 17, 13, 15, 10, 11, 12, 0]
  {
  }

  lemma SumOfGabc()
    ensures WeightedSum([16, 10, 11, 12, 9, 0, 0, 1, 0, 1, 17, 13, 15, 10, 11, 12, 0], Weights, 17)
         == 1407
  {
    var xs := [16, 10, 11, 12, 9, 0, 0, 1, 0, 1, 17, 13, 15, 10, 11, 12, 0];
    assert WeightedSum(xs, Weights, 9) == 951;
  }

  /** 'GABC900101HDFABC03' passes (sum 1407, check 3) and 'GABC900101HDFABC00' does not. The
      nineteen-character codes of mex.test.js do not match the eighteen-character format. */
  lemma ChecksumExamples()
    ensures HasValidCheckDigit("GABC900101HDFABC03")
    ensures !HasValidCheckDigit("GABC900101HDFABC00")
    ensures !Format("GABC900101HDFABC019")
  {
    ValuesOfGabc();
    SumOfGabc();
    assert "GABC900101HDFABC00"[..17] == "GABC900101HDFABC03"[..17];
  }

  lemma FieldsOfGabc()
    ensures "GABC900101HDFABC03"[4..6] == "90" && Decimal("90") == 90
    ensures "GABC900101HDFABC03"[6..8] == "01" && Decimal("01") == 1
    ensures "GABC900101HDFABC03"[8..10] == "01"
    ensures BirthDateString(1990, 1, 1) == "1990-01-01"
  {
    assert DecimalPrefix("90", 2) == 90 && DecimalPrefix("01", 2) == 1;
    assert NatString(1990) == "1990";
  }

  /** What Parse reads from the date, gender and state fields of a valid code. */
  lemma ParseOfFields(s: string, yy: nat, mm: nat, dd: nat)
    requires HasValidCheckDigit(s)
    requires Decimal(s[4..6]) == yy && Decimal(s[6..8]) == mm && Decimal(s[8..10]) == dd
    requires 1 <= mm <= 12 && 1 <= dd <= 31
    ensures Parse(s).Some? && (Parse(s).value.gender == Male <==> s[10] == 'H')
    ensures Parse(s).value.birthDate == BirthDateString(CenturyYear(yy), mm, dd)
    ensures Parse(s).value.stateCode == s[11..13]
  {
  }

  /** 'GABC900101HDFABC03' is a man born on 1990-01-01 in state 'DF'. */
  lemma ParseExample()
    ensures Parse("GABC900101HDFABC03").Some?
    ensures Parse("GABC900101HDFABC03").value.gender == Male
    ensures Parse("GABC900101HDFABC03").value.birthDate == "1990-01-01"
    ensures Parse("GABC900101HDFABC03").value.stateCode == "DF"
  {
    ChecksumExamples();
    FieldsOfGabc();
    ParseOfFields("GABC900101HDFABC03", 90, 1, 1);
    assert CenturyYear(90) == 1990;
  }
}
