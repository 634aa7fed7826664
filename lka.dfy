/** The Sri Lankan national identity card number (the twelve-digit form): the birth year, the
    day of the year (plus 500 for women), a serial and a mod-11 check digit
    (lka/national_id.js). */
module LkaNationalId {

  import opened Common
  import opened NationalIdUtil
  import Calendar

  /** REGEXP: a four-digit year, three digits of days, a four-digit serial and the check
      digit. */
  predicate Format(s: string) {
    |s| == 12 && AllDigits(s)
  }

  const MagicMultiplier: seq<int> := [8, 4, 3, 2, 7, 6, 5, 7, 4, 3, 2]

  /** The weighted sum of the first eleven digits. */
  function Total(s: string): nat
    requires Format(s)
  {
    WeightedSumNonnegative(Digits(s[..11]), MagicMultiplier, 11);
    WeightedSum(Digits(s[..11]), MagicMultiplier, 11)
  }

  /** `modulusOverflowMod10(weightedModulusDigit(first eleven, MAGIC_MULTIPLIER, 11))`: eleven
      minus the remainder, with 10 and 11 cut to their last digit. The digit that brings the sum
      to a multiple of 11 when there is one; remainder 1 gives 0 and remainder 0 gives 1. */
  function CheckDigit(s: string): (c: int)
    requires Format(s)
    ensures 0 <= c <= 9
    ensures Total(s) % 11 >= 2 ==> (Total(s) + c) % 11 == 0
    ensures Total(s) % 11 == 1 ==> c == 0
    ensures Total(s) % 11 == 0 ==> c == 1
  {
    var ds := Digits(s[..11]);
    WeightedSumNonnegative(ds, MagicMultiplier, 11);
    var m := WeightedModulusDigit(ds, Some(MagicMultiplier), 11, false);
    WeightedModulusCompletes(ds, MagicMultiplier, 11);
    ModulusOverflowMod10(m.value)
  }

  /** `checksum(idNumber)`. */
  function Checksum(s: string): (ok: bool)
    ensures ok <==> Format(s) && CheckDigit(s) == DigitValue(s[11])
  {
    Format(s) && CheckDigit(s) == DigitValue(s[11])
  }

  /** A check digit that differs from the computed one is rejected; so exactly one final digit
      completes eleven digits. */
  lemma CheckDigitUnique(s: string, t: string)
    requires Checksum(s) && Format(t) && s[..11] == t[..11] && s[11] != t[11]
    ensures !Checksum(t)
  {
    assert Total(s) == Total(t);
    assert DigitValue(s[11]) != DigitValue(t[11]);
  }

  /** The days group. */
  function Days(s: string): nat
    requires Format(s)
  {
    Decimal(s[4..7])
  }

  /** The offset from January 1 that `setUTCDate` adds: days - 501 above 500, else days - 1. */
  function DayOffset(days: nat): int {
    if days > 500 then days - 501 else days - 1
  }

  /** What `parse` returns. */
  datatype SriLankanId = SriLankanId(birthDate: Calendar.Date, gender: Gender, sn: string,
                                     checksum: Digit)

  /** `parse(idNumber)`: None unless the check digit holds; the birth date is January 1 of the
      year (which `Date.UTC` reads as 1900 + year below 100) moved by the day offset, the gender
      is male below 500 days. */
  function Parse(s: string): (r: Option<SriLankanId>)
    ensures r.Some? <==> Checksum(s)
    ensures r.Some? ==>
      && r.value.birthDate == Calendar.AddDays(Calendar.UtcYear(Decimal(s[..4])), DayOffset(Days(s)))
      && (r.value.gender == Male <==> Days(s) < 500)
      && r.value.sn == s[7..11] && r.value.checksum == DigitValue(s[11])
  {
    if !Checksum(s) then None
    else
      var year := Decimal(s[..4]);
      var days := Days(s);
      Some(SriLankanId(Calendar.AddDays(Calendar.UtcYear(year), DayOffset(days)),
                       if days < 500 then Male else Female, s[7..11], DigitValue(s[11])))
  }

  /** Where the birth date falls, for every day number the format admits. The offset lies in
      -1..499: inside the year it is the zero-based day of the year; past the year's end it rolls
      over into the next year, as `setUTCDate` does; -1 (days 0 or 500) is December 31 of the
      year before. */
  lemma ParseDayOfYear(s: string)
    requires Parse(s).Some?
    ensures var y, k := Calendar.UtcYear(Decimal(s[..4])), DayOffset(Days(s));
      var d := Parse(s).value.birthDate;
      && -1 <= k <= 499
      && (0 <= k < Calendar.DaysInYear(y) ==> d.year == y && Calendar.DayOfYear(d) == k)
      && (Calendar.DaysInYear(y) <= k ==>
            d.year == y + 1 && Calendar.DayOfYear(d) == k - Calendar.DaysInYear(y))
      && (k == -1 ==> d == Calendar.Date(y - 1, 12, 31))
  {
    var y, k := Calendar.UtcYear(Decimal(s[..4])), DayOffset(Days(s));
    assert |s[4..7]| == 3 && Pow10(3) == 1000;
    if k == -1 {
      Calendar.AddDaysMinusOne(y);
    }
  }

  /** `validate(idNumber)`. */
  predicate Validate(s: string)
    ensures Validate(s) <==> Checksum(s)
  {
    Format(s) && Parse(s).Some?
  }

  // ---------------------------------------------------------------------------------------
  // Examples from lka.test.js

  const Sample: string := "200159302029"

  lemma DigitsOfSample()
    ensures Format(Sample)
    ensures Digits(Sample[..11]) == [2, 0, 0, 1, 5, 9, 3, 0, 2, 0, 2] && Sample[11] == '9'
    ensures Sample[..4] == "2001" && Sample[4..7] == "593" && Sample[7..11] == "0202"
  {
  }

  lemma TotalOfSample(ds: seq<Digit>)
    requires ds == [2, 0, 0, 1, 5, 9, 3, 0, 2, 0, 2]
    ensures WeightedSum(ds, MagicMultiplier, 11) == 134
  {
    assert WeightedSum([2, 0, 0, 1, 5, 9, 3, 0, 2, 0, 2], MagicMultiplier, 11) == 134;
  }

  /** The sum 134 leaves 2, so the check digit is 9. */
  lemma ChecksumExample()
    ensures Checksum(Sample)
  {
    DigitsOfSample();
    TotalOfSample(Digits(Sample[..11]));
  }

  lemma DecimalsOfSample()
    ensures Decimal("2001") == 2001 && Decimal("593") == 593
  {
    assert DecimalPrefix("2001", 4) == 2001;
    assert DecimalPrefix("593", 3) == 593;
  }

  /** Day 92 of 2001 (counted from 0) is April 3. */
  lemma AprilThird2001()
    ensures Calendar.AddDays(2001, 92) == Calendar.Date(2001, 4, 3)
  {
    var d := Calendar.Date(2001, 4, 3);
    assert Calendar.MonthStart(2001, 4) == 90;
    Calendar.DayOfYearInjective(Calendar.AddDays(2001, 92), d);
  }

  /** '200159302029': 593 days is a woman born on day 93 of 2001, April 3, serial '0202' and
      checksum 9. */
  lemma ParseExample()
    ensures Parse(Sample) == Some(SriLankanId(Calendar.Date(2001, 4, 3), Female, "0202", 9))
  {
    DigitsOfSample();
    ChecksumExample();
    DecimalsOfSample();
    AprilThird2001();
  }
}
