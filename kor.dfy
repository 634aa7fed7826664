/** The South Korean resident registration number: the birth date as yymmdd, an optional dash, a
    gender-and-century digit, five serial digits and a weighted mod-11 check digit
    (kor/rrn.js). */
module KorRrn {

  import opened Common

  /** Thirteen digits whose seventh is a gender-and-century digit 1..4. */
  predicate Undashed(t: string) {
    |t| == 13 && AllDigits(t) && '1' <= t[6] <= '4'
  }

  /** REGEXP: six digits, an optional dash, a digit 1..4 and six digits. */
  predicate Format(s: string) {
    || Undashed(s)
    || (|s| == 14 && AllDigits(s[..6]) && s[6] == '-' && AllDigits(s[7..]) && '1' <= s[7] <= '4')
  }

  /** `idNumber.replace('-', '')`: the code without its dash. */
  function Clean(s: string): (t: string)
    ensures Format(s) ==> Undashed(t)
    ensures Format(s) && |s| == 13 ==> t == s
    ensures Format(s) && |s| == 14 ==> t == s[..6] + s[7..]
  {
    if !Format(s) then ReplaceFirst(s, '-')
    else if |s| == 13 then
      DigitsHaveNoDash(s);
      ReplaceFirst(s, '-')
    else
      DigitsHaveNoDash(s[..6]);
      ReplaceFirstAt(s, '-', 6);
      ReplaceFirst(s, '-')
  }

  const Weights: seq<int> := [2, 3, 4, 5, 6, 7, 8, 9, 2, 3, 4, 5]

  /** `(11 - sum % 11) % 10`: the digit that makes the sum a multiple of 11, except that
      remainder 0 gives 1 and remainder 1 gives 0. */
  function CheckDigitFor(sum: int): (c: int)
    ensures 0 <= c <= 9
    ensures sum % 11 >= 2 ==> (sum + c) % 11 == 0
    ensures sum % 11 < 2 ==> c == 1 - sum % 11
  {
    ModComplement(sum, 11);
    (11 - sum % 11) % 10
  }

  /** What `checksum` decides. */
  predicate HasValidCheckDigit(s: string) {
    Format(s) && Digits(Clean(s))[12] == CheckDigitFor(WeightedSum(Digits(Clean(s)), Weights, 12))
  }

  /** `checksum(idNumber)`: the loop over the twelve weights. */
  method Checksum(idNumber: string) returns (ok: bool)
    ensures ok <==> HasValidCheckDigit(idNumber)
  {
    if !Format(idNumber) {
      return false;
    }
    var cleanId := Clean(idNumber);
    var digits := Digits(cleanId);
    var sum: int := 0;
    var i := 0;
    while i < 12
      invariant 0 <= i <= 12
      invariant sum == WeightedSum(digits, Weights, i)
    {
      sum := sum + digits[i] * Weights[i];
      i := i + 1;
    }
    var remainder := sum % 11;
    var checkDigit := (11 - remainder) % 10;
    return checkDigit == digits[12];
  }

  /** The dash is optional: a code with it and without it clean to the same digits and get
      the same verdict. */
  lemma DashIsOptional(t: string)
    requires Undashed(t)
    ensures Format(t[..6] + "-" + t[6..])
    ensures Clean(t[..6] + "-" + t[6..]) == t
    ensures HasValidCheckDigit(t[..6] + "-" + t[6..]) <==> HasValidCheckDigit(t)
  {
    var s := t[..6] + "-" + t[6..];
    assert s[..6] == t[..6] && s[7..] == t[6..];
    assert t[..6] + t[6..] == t;
  }

  /** The `switch` on the gender-and-century digit: 1 and 3 are men, 2 and 4 women; 1 and 2
      the 1900s, 3 and 4 the 2000s; any other digit has no meaning. */
  function CenturyAndGender(d: int): (r: Option<(int, Gender)>)
    ensures r.Some? <==> 1 <= d <= 4
  {
    match d
    case 1 => Some((1900, Male))
    case 2 => Some((1900, Female))
    case 3 => Some((2000, Male))
    case 4 => Some((2000, Female))
    case _ => None
  }

  /** The digit of a century and a gender. */
  function GenderCenturyDigit(century: int, gender: Gender): int
    requires century in {1900, 2000}
  {
    (if century == 2000 then 2 else 0) + (if gender == Male then 1 else 2)
  }

  /** The gender-and-century digit encodes century and gender one to one. */
  lemma CenturyAndGenderRoundTrip(century: int, gender: Gender, d: int)
    requires century in {1900, 2000}
    ensures CenturyAndGender(GenderCenturyDigit(century, gender)) == Some((century, gender))
    ensures CenturyAndGender(d).Some? ==>
      GenderCenturyDigit(CenturyAndGender(d).value.0, CenturyAndGender(d).value.1) == d
  {
  }

  /** What `parse` returns. */
  datatype Rrn = Rrn(number: string, gender: Gender, birthDate: string, year: int, month: int,
                     day: int)

  /** `parse(idNumber)`: None unless the checksum holds and the month is 1..12 and the day
      1..31; the number is returned without its dash. */
  function Parse(s: string): (r: Option<Rrn>)
    ensures r.Some? <==>
      HasValidCheckDigit(s) && 1 <= Decimal(Clean(s)[2..4]) <= 12 && 1 <= Decimal(Clean(s)[4..6]) <= 31
    ensures r.Some? ==>
      var t := Clean(s);
      && r.value.number == t && |t| == 13 && AllDigits(t)
      && r.value.year == (if t[6] <= '2' then 1900 else 2000) + Decimal(t[..2])
      && (r.value.gender == Male <==> t[6] in {'1', '3'})
      && r.value.month == Decimal(t[2..4]) && r.value.day == Decimal(t[4..6])
      && r.value.birthDate == BirthDateString(r.value.year, r.value.month, r.value.day)
  {
    if !HasValidCheckDigit(s) then None
    else
      var t := Clean(s);
      var year := Decimal(t[..2]);
      var month := Decimal(t[2..4]);
      var day := Decimal(t[4..6]);
      if month < 1 || month > 12 || day < 1 || day > 31 then None
      else
        match CenturyAndGender(DigitValue(t[6]))
        case None => None
        case Some((century, gender)) =>
          var actualYear := century + year;
          Some(Rrn(t, gender, BirthDateString(actualYear, month, day), actualYear, month, day))
  }

  /** `validate(idNumber)`. */
  predicate Validate(s: string)
    ensures Validate(s) <==>
      Format(s) && HasValidCheckDigit(s) && 1 <= Decimal(Clean(s)[2..4]) <= 12 && 1 <= Decimal(Clean(s)[4..6]) <= 31
  {
    Format(s) && Parse(s).Some?
  }

  /** A thirteen-digit code passes iff its last digit is the check digit of its weighted sum. */
  lemma ValidByDigits(t: string, ds: seq<Digit>, sum: int)
    requires Undashed(t) && Digits(t) == ds && WeightedSum(ds, Weights, 12) == sum
    ensures HasValidCheckDigit(t) <==> ds[12] == CheckDigitFor(sum)
  {
  }

  lemma FormatOf9001011234568()
    ensures Undashed("9001011234568") && Undashed("9001011234567")
  {
  }

  lemma DigitsOf9001011234568()
    ensures Digits("9001011234568") == [9, 0, 0, 1, 0, 1, 1, 2, 3, 4, 5, 6, 8]
  {
  }

  lemma DigitsOf9001011234567()
    ensures Digits("9001011234567") == [9, 0, 0, 1, 0, 1, 1, 2, 3, 4, 5, 6, 7]
  {
  }

  lemma SumOf9001011234568()
    ensures WeightedSum([9, 0, 0, 1, 0, 1, 1, 2, 3, 4, 5, 6, 8], Weights, 12) == 124
  {
    assert WeightedSum([9, 0, 0, 1, 0, 1, 1, 2, 3, 4, 5, 6, 8], Weights, 6) == 30;
  }

  lemma SumOf9001011234567()
    ensures WeightedSum([9, 0, 0, 1, 0, 1, 1, 2, 3, 4, 5, 6, 7], Weights, 12) == 124
  {
    assert WeightedSum([9, 0, 0, 1, 0, 1, 1, 2, 3, 4, 5, 6, 7], Weights, 6) == 30;
  }

  lemma CheckDigitFor124()
    ensures CheckDigitFor(124) == 8
  {
  }

  /** '9001011234568' passes: its sum is 124, remainder 3, check 8. */
  lemma ValidExample()
    ensures HasValidCheckDigit("9001011234568")
  {
    FormatOf9001011234568();
    DigitsOf9001011234568();
    SumOf9001011234568();
    CheckDigitFor124();
    ValidByDigits("9001011234568", [9, 0, 0, 1, 0, 1, 1, 2, 3, 4, 5, 6, 8], 124);
  }

  /** kor.test.js lists '900101-1234567' as valid; the code as written rejects it. */
  lemma RejectedTestVector()
    ensures !HasValidCheckDigit("9001011234567")
  {
    FormatOf9001011234568();
    DigitsOf9001011234567();
    SumOf9001011234567();
    CheckDigitFor124();
    ValidByDigits("9001011234567", [9, 0, 0, 1, 0, 1, 1, 2, 3, 4, 5, 6, 7], 124);
  }

  lemma FieldsOf9001011234568()
    ensures "9001011234568"[..2] == "90" && Decimal("90") == 90
    ensures "9001011234568"[2..4] == "01" && Decimal("01") == 1
    ensures "9001011234568"[4..6] == "01"
  {
    assert DecimalPrefix("90", 2) == 90 && DecimalPrefix("01", 2) == 1;
  }

  /** Parsing a code and parsing it without its dash give the same result. */
  lemma ParseIgnoresDash(s: string)
    requires Format(s)
    ensures Clean(Clean(s)) == Clean(s)
    ensures Parse(s) == Parse(Clean(s))
  {
  }

  lemma FormatOf900101Dash1234568()
    ensures Format("900101-1234568")
  {
  }

  lemma CleanDashed(s: string, birth: string, rest: string)
    requires Format(s) && |s| == 14 && s[..6] == birth && s[7..] == rest
    ensures Clean(s) == birth + rest
  {
  }

  lemma CleanOf900101Dash1234568()
    ensures Format("900101-1234568") && Clean("900101-1234568") == "9001011234568"
  {
    FormatOf900101Dash1234568();
    CleanDashed("900101-1234568", "900101", "1234568");
  }

  lemma ParseOf9001011234568()
    ensures Parse("9001011234568").Some?
    ensures Parse("9001011234568").value.number == "9001011234568"
    ensures Parse("9001011234568").value.gender == Male
    ensures Parse("9001011234568").value.year == 1990
  {
    ValidExample();
    FieldsOf9001011234568();
    FormatOf9001011234568();
    var t := "9001011234568";
    assert Clean(t) == t;
    assert t[6] == '1';
  }

  /** '900101-1234568' is a man born in 1990 whose number is returned as '9001011234568'. */
  lemma ParseExample()
    ensures Parse("900101-1234568").Some?
    ensures Parse("900101-1234568").value.number == "9001011234568"
    ensures Parse("900101-1234568").value.gender == Male
    ensures Parse("900101-1234568").value.year == 1990
  {
    CleanOf900101Dash1234568();
    ParseIgnoresDash("900101-1234568");
    ParseOf9001011234568();
  }
}
