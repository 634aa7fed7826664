/** The resident identity number of the People's Republic of China: a six-digit address code,
    the birth date as yyyymmdd, a three-digit serial and an ISO/IEC 7064 MOD 11-2 check
    character (chn/resident_id.js). */
module ChnResidentId {

  import opened Common
  import Calendar

  /** REGEXP: six address digits, a four-digit year, a month 01..12, a day 01..31, three serial
      digits and a digit or X. */
  predicate Format(s: string) {
    && |s| == 18 && AllDigits(s[..17]) && (IsDigit(s[17]) || s[17] == 'X')
    && AllDigits(s[..6]) && AllDigits(s[6..10]) && AllDigits(s[10..12]) && AllDigits(s[12..14])
    && 1 <= Decimal(s[10..12]) <= 12 && 1 <= Decimal(s[12..14]) <= 31
  }

  function Pow2(n: nat): (p: nat)
    ensures p >= 1
  {
    if n == 0 then 1 else 2 * Pow2(n - 1)
  }

  /** `Math.pow(2, 17 - i) % 11` for i = 0..16. */
  const Weights: seq<int> := [7, 9, 10, 5, 8, 4, 2, 1, 6, 3, 7, 9, 10, 5, 8, 4, 2]

  /** The table is the powers of two mod 11 the loop computes. */
  lemma WeightsArePowersOfTwo(i: int)
    requires 0 <= i < 17
    ensures Weights[i] == Pow2(17 - i) % 11
  {
    assert Pow2(1) == 2 && Pow2(2) == 4 && Pow2(3) == 8 && Pow2(4) == 16 && Pow2(5) == 32;
    assert Pow2(6) == 64 && Pow2(7) == 128 && Pow2(8) == 256 && Pow2(9) == 512;
    assert Pow2(10) == 1024 && Pow2(11) == 2048 && Pow2(12) == 4096 && Pow2(13) == 8192;
    assert Pow2(14) == 16384 && Pow2(15) == 32768 && Pow2(16) == 65536 && Pow2(17) == 131072;
  }

  /** What `checksum` returns: a number 0..9, or 'X' for 10. */
  datatype CheckValue = CheckNumber(n: int) | CheckX

  /** `String(checksum)`. */
  function CheckText(c: CheckValue): (t: char)
    requires c.CheckNumber? ==> 0 <= c.n <= 9
  {
    match c
    case CheckNumber(n) => DigitChar(n)
    case CheckX => 'X'
  }

  /** `(12 - total % 11) % 11`: the value that brings the total plus the check to 1 mod 11. */
  function CheckOf(ds: seq<Digit>): (c: int)
    requires |ds| == 17
    ensures 0 <= c <= 10 && (WeightedSum(ds, Weights, 17) + c) % 11 == 1
  {
    var total := WeightedSum(ds, Weights, 17);
    assert total == 11 * (total / 11) + total % 11;
    (12 - total % 11) % 11
  }

  /** The check value is the only one of 0..10 that brings the total to 1 mod 11. */
  lemma CheckOfUnique(ds: seq<Digit>, c: int)
    requires |ds| == 17 && 0 <= c <= 10 && (WeightedSum(ds, Weights, 17) + c) % 11 == 1
    ensures c == CheckOf(ds)
  {
    ModCancel(WeightedSum(ds, Weights, 17), 11, c, CheckOf(ds));
  }

  /** 10 is shown as X. */
  function CheckValueOf(v: int): (c: CheckValue)
    requires 0 <= v <= 10
    ensures c.CheckNumber? ==> 0 <= c.n <= 9
    ensures c == CheckX <==> v == 10
    ensures c.CheckNumber? ==> c.n == v
  {
    if v == 10 then CheckX else CheckNumber(v)
  }

  /** `checksum(idNumber)`: None unless the format holds, else the check value of the first
      seventeen digits. */
  method Checksum(idNumber: string) returns (r: Option<CheckValue>)
    ensures r.Some? <==> Format(idNumber)
    ensures r.Some? ==> r.value == CheckValueOf(CheckOf(Digits(idNumber[..17])))
  {
    if !Format(idNumber) {
      return None;
    }
    var normalized := ToUpperString(idNumber);
    assert normalized[..17] == idNumber[..17];
    var digits := Digits(normalized[..17]);
    var total: int := 0;
    var i := 0;
    while i < |digits|
      invariant 0 <= i <= 17
      invariant total == WeightedSum(digits, Weights, i)
    {
      WeightsArePowersOfTwo(i);
      total := total + digits[i] * (Pow2(17 - i) % 11);
      i := i + 1;
    }
    var checksum := (12 - total % 11) % 11;
    return Some(if checksum == 10 then CheckX else CheckNumber(checksum));
  }

  /** What `parse` checks besides the format: the check character agrees. */
  predicate HasValidCheck(s: string) {
    Format(s) && CheckText(CheckValueOf(CheckOf(Digits(s[..17])))) == s[17]
  }

  /** What `parse` returns; the date is the `Date` object's UTC fields. */
  datatype ResidentId = ResidentId(addressCode: string, birthDate: Calendar.Date, sn: string,
                                   gender: Gender, checksum: CheckValue)

  /** `parse(idNumber)`: None unless the check character agrees and the date exists; an even
      serial is female. */
  function Parse(s: string): (r: Option<ResidentId>)
    ensures r.Some? <==>
      HasValidCheck(s) && Calendar.UtcRoundTrips(Decimal(s[6..10]), Decimal(s[10..12]), Decimal(s[12..14]))
    ensures r.Some? ==>
      && r.value.addressCode == s[..6] && r.value.sn == s[14..17]
      && r.value.birthDate == Calendar.Date(Decimal(s[6..10]), Decimal(s[10..12]), Decimal(s[12..14]))
      && Calendar.IsValidDate(r.value.birthDate)
      && (r.value.gender == Female <==> Decimal(s[14..17]) % 2 == 0)
      && r.value.checksum == CheckValueOf(CheckOf(Digits(s[..17])))
  {
    if !HasValidCheck(s) then None
    else
      var yyyy := Decimal(s[6..10]);
      var mm := Decimal(s[10..12]);
      var dd := Decimal(s[12..14]);
      if !Calendar.UtcRoundTrips(yyyy, mm, dd) then None
      else
        var sn := s[14..17];
        Some(ResidentId(s[..6], Calendar.Date(yyyy, mm, dd), sn,
                        if Decimal(sn) % 2 == 0 then Female else Male,
                        CheckValueOf(CheckOf(Digits(s[..17])))))
  }

  /** `validate(idNumber)`. */
  predicate Validate(s: string)
    ensures Validate(s) <==>
      HasValidCheck(s) && Calendar.UtcRoundTrips(Decimal(s[6..10]), Decimal(s[10..12]), Decimal(s[12..14]))
  {
    Parse(s).Some?
  }

  /** A well-formed code passes iff its check character shows the check value of its digits. */
  lemma ValidByDigits(s: string, ds: seq<Digit>, total: int)
    requires Format(s) && Digits(s[..17]) == ds && WeightedSum(ds, Weights, 17) == total
    ensures HasValidCheck(s) <==> CheckText(CheckValueOf((12 - total % 11) % 11)) == s[17]
  {
  }

  lemma Decimal1984()
    ensures Decimal("1984") == 1984
  {
    assert DecimalPrefix("1984", 4) == 1984;
  }

  lemma Decimal970()
    ensures Decimal("970") == 970
  {
    assert DecimalPrefix("970", 3) == 970;
  }

  lemma DatesOf11010219840406970X()
    ensures "11010219840406970X"[6..10] == "1984" && Decimal("1984") == 1984
    ensures "11010219840406970X"[10..12] == "04" && Decimal("04") == 4
    ensures "11010219840406970X"[12..14] == "06" && Decimal("06") == 6
    ensures "11010219840406970X"[14..17] == "970" && Decimal("970") == 970
  {
    Decimal1984();
    Decimal970();
    assert DecimalPrefix("04", 2) == 4 && DecimalPrefix("06", 2) == 6;
  }

  lemma FormatOf11010219840406970X()
    ensures Format("11010219840406970X")
  {
    DatesOf11010219840406970X();
  }

  lemma DigitsOf11010219840406970X()
    ensures Digits("11010219840406970X"[..17]) == [1, 1, 0, 1, 0, 2, 1, 9, 8, 4, 0, 4, 0, 6, 9, 7, 0]
  {
  }

  lemma SumOf11010219840406970X()
    ensures WeightedSum([1, 1, 0, 1, 0, 2, 1, 9, 8, 4, 0, 4, 0, 6, 9, 7, 0], Weights, 17) == 266
  {
    assert WeightedSum([1, 1, 0, 1, 0, 2, 1, 9, 8, 4, 0, 4, 0, 6, 9, 7, 0], Weights, 9) == 88;
  }

  /** chn.test.js: '11010219840406970X' passes, its total 266 calling for X. */
  lemma ValidExample()
    ensures HasValidCheck("11010219840406970X")
  {
    FormatOf11010219840406970X();
    DigitsOf11010219840406970X();
    SumOf11010219840406970X();
    ValidByDigits("11010219840406970X", [1, 1, 0, 1, 0, 2, 1, 9, 8, 4, 0, 4, 0, 6, 9, 7, 0], 266);
  }

  /** chn.test.js: '11010219840406970X' is 110102, 1984-04-06, serial '970' (even, so female)
      and check X. */
  lemma ParseExample()
    ensures Parse("11010219840406970X").Some?
    ensures Parse("11010219840406970X").value.addressCode == "110102"
    ensures Parse("11010219840406970X").value.birthDate == Calendar.Date(1984, 4, 6)
    ensures Parse("11010219840406970X").value.sn == "970"
    ensures Parse("11010219840406970X").value.gender == Female
    ensures Parse("11010219840406970X").value.checksum == CheckX
  {
    ValidExample();
    DatesOf11010219840406970X();
    DigitsOf11010219840406970X();
    SumOf11010219840406970X();
  }

  lemma DatesOf11010219840506970X()
    ensures "11010219840506970X"[10..12] == "05" && Decimal("05") == 5
    ensures "11010219840506970X"[12..14] == "06" && Decimal("06") == 6
  {
    assert DecimalPrefix("05", 2) == 5 && DecimalPrefix("06", 2) == 6;
  }

  lemma DigitsOf11010219840506970X()
    ensures Digits("11010219840506970X"[..17]) == [1, 1, 0, 1, 0, 2, 1, 9, 8, 4, 0, 5, 0, 6, 9, 7, 0]
  {
  }

  lemma SumOf11010219840506970X()
    ensures WeightedSum([1, 1, 0, 1, 0, 2, 1, 9, 8, 4, 0, 5, 0, 6, 9, 7, 0], Weights, 17) == 275
  {
    assert WeightedSum([1, 1, 0, 1, 0, 2, 1, 9, 8, 4, 0, 5, 0, 6, 9, 7, 0], Weights, 9) == 88;
  }

  /** chn.test.js: '11010219840506970X' fails: changing the month makes the total 275, which
      calls for 1. */
  lemma InvalidExample()
    ensures !HasValidCheck("11010219840506970X")
  {
    DatesOf11010219840506970X();
    DigitsOf11010219840506970X();
    SumOf11010219840506970X();
    ValidByDigits("11010219840506970X", [1, 1, 0, 1, 0, 2, 1, 9, 8, 4, 0, 5, 0, 6, 9, 7, 0], 275);
  }
}
