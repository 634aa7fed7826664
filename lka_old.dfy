/** The deprecated Sri Lankan national identity card number: a two-digit year of the 1900s, the
    days group, a three-digit serial, the check digit and a citizenship letter
    (lka/old_national_id.js). It is checked and decoded through its twelve-digit form. */
module LkaOldNationalId {

  import opened Common
  import LkaNationalId
  import Calendar

  /** REGEXP: nine digits and one of X, x, V, v. */
  predicate Format(s: string) {
    |s| == 10 && AllDigits(s[..9]) && s[9] in {'X', 'x', 'V', 'v'}
  }

  /** `toNew(idNumber)`: '19' before the year, a '0' before the serial, the letter dropped; None
      (null) when the format does not hold. */
  function ToNew(s: string): (r: Option<string>)
    ensures r.Some? <==> Format(s)
    ensures r.Some? ==> LkaNationalId.Format(r.value) && r.value[..2] == "19" && r.value[7] == '0'
    ensures r.Some? ==> r.value[2..7] == s[..5] && r.value[8..] == s[5..9]
  {
    if !Format(s) then None
    else
      var r := "19" + s[0..2] + s[2..5] + "0" + s[5..8] + s[8..9];
      assert |r| == 12 && r[..2] == "19" && r[7] == '0';
      forall i | 0 <= i < 12
        ensures IsDigit(r[i])
      {
        if 2 <= i < 7 {
          assert r[i] == s[i - 2];
        } else if 8 <= i {
          assert r[i] == s[i - 3];
        }
      }
      assert r[2..7] == s[..5] && r[8..] == s[5..9];
      Some(r)
  }

  /** The inverse of `toNew`: the old form of a twelve-digit number of the 1900s with a zero
      before its serial, and a citizenship letter. */
  function ToOld(n: string, letter: char): (s: string)
    requires LkaNationalId.Format(n) && n[..2] == "19" && n[7] == '0'
    requires letter in {'X', 'x', 'V', 'v'}
    ensures Format(s)
  {
    n[2..7] + n[8..] + [letter]
  }

  /** Converting to the new form and back gives the old number again. */
  lemma ToOldToNew(s: string)
    requires Format(s)
    ensures ToOld(ToNew(s).value, s[9]) == s
  {
    var n := ToNew(s).value;
    assert ToOld(n, s[9]) == s[..5] + s[5..9] + [s[9]];
    assert s == s[..5] + s[5..9] + [s[9]];
  }

  /** Every twelve-digit number of the 1900s with a zero before its serial is the new form of an
      old number, whatever its letter. */
  lemma ToNewToOld(n: string, letter: char)
    requires LkaNationalId.Format(n) && n[..2] == "19" && n[7] == '0'
    requires letter in {'X', 'x', 'V', 'v'}
    ensures ToNew(ToOld(n, letter)) == Some(n)
  {
    var s := ToOld(n, letter);
    var r := ToNew(s).value;
    assert r[..2] == n[..2] && r[2..7] == n[2..7] && r[8..] == n[8..];
    assert forall i :: 0 <= i < 12 ==> r[i] == n[i] by {
      forall i | 0 <= i < 12 ensures r[i] == n[i] {
        if i < 2 {
          assert r[i] == r[..2][i] && n[i] == n[..2][i];
        } else if i < 7 {
          assert r[i] == r[2..7][i - 2] && n[i] == n[2..7][i - 2];
        } else if i > 7 {
          assert r[i] == r[8..][i - 8] && n[i] == n[8..][i - 8];
        }
      }
    }
    assert r == n;
  }

  /** `checksum(idNumber)`: the check digit of the new form. */
  function Checksum(s: string): (ok: bool)
    ensures ok <==> Format(s) && LkaNationalId.Checksum(ToNew(s).value)
  {
    var n := ToNew(s);
    n.Some? && LkaNationalId.Checksum(n.value)
  }

  /** The weights the new form gives the eight digits before the old check digit. */
  const OldWeights: seq<int> := [3, 2, 7, 6, 5, 4, 3, 2]

  /** The new form's weighted sum is the old digits' own weighted sum plus 44, the weight of the
      '19' (8 * 1 + 4 * 9); the inserted zero adds nothing. */
  lemma OldTotal(s: string)
    requires Format(s)
    ensures LkaNationalId.Total(ToNew(s).value) == 44 + WeightedSum(Digits(s[..8]), OldWeights, 8)
  {
    var n := ToNew(s).value;
    var ds := Digits(n[..11]);
    var es := Digits(s[..8]);
    var w := LkaNationalId.MagicMultiplier;
    assert n[..11] == "19" + s[..5] + "0" + s[5..8];
    assert ds[0] == 1 && ds[1] == 9 && ds[7] == 0;
    assert forall i :: 0 <= i < 5 ==> ds[i + 2] == es[i];
    assert forall i :: 5 <= i < 8 ==> ds[i + 3] == es[i];
    assert w[0] == 8 && w[1] == 4 && w[7] == 7;
    assert WeightedSum(ds, w, 1) == 8;
    assert WeightedSum(ds, w, 2) == 44;
    assert WeightedSum(ds, w, 3) == 44 + WeightedSum(es, OldWeights, 1);
    assert WeightedSum(ds, w, 4) == 44 + WeightedSum(es, OldWeights, 2);
    assert WeightedSum(ds, w, 5) == 44 + WeightedSum(es, OldWeights, 3);
    assert WeightedSum(ds, w, 6) == 44 + WeightedSum(es, OldWeights, 4);
    assert WeightedSum(ds, w, 7) == 44 + WeightedSum(es, OldWeights, 5);
    assert WeightedSum(ds, w, 8) == 44 + WeightedSum(es, OldWeights, 5);
    assert WeightedSum(ds, w, 9) == 44 + WeightedSum(es, OldWeights, 6);
    assert WeightedSum(ds, w, 10) == 44 + WeightedSum(es, OldWeights, 7);
    assert WeightedSum(ds, w, 11) == 44 + WeightedSum(es, OldWeights, 8);
  }

  /** What `parse` returns: the new form's fields and the citizenship. */
  datatype OldSriLankanId = OldSriLankanId(birthDate: Calendar.Date, gender: Gender, sn: string,
                                           checksum: Digit, citizenship: Citizenship)

  /** `parse(idNumber)`: None unless the new form parses; the letter V (either case) marks a
      citizen and X a resident; the serial gains the leading zero of the new form. */
  function Parse(s: string): (r: Option<OldSriLankanId>)
    ensures r.Some? <==> Checksum(s)
    ensures r.Some? ==>
      var p := LkaNationalId.Parse(ToNew(s).value).value;
      && r.value.birthDate == p.birthDate && r.value.gender == p.gender
      && r.value.sn == "0" + s[5..8] && r.value.checksum == DigitValue(s[8])
      && (r.value.citizenship == Citizen <==> s[9] in {'V', 'v'})
      && (r.value.citizenship == Citizen || r.value.citizenship == Resident)
  {
    var n := ToNew(s);
    if n.None? then None
    else
      var p := LkaNationalId.Parse(n.value);
      if p.None? then None
      else
        assert n.value[7..11] == "0" + s[5..8];
        var citizenship := if ToUpper(s[|s| - 1]) == 'V' then Citizen else Resident;
        Some(OldSriLankanId(p.value.birthDate, p.value.gender, p.value.sn, p.value.checksum,
                            citizenship))
  }

  /** `validate(idNumber)`. */
  predicate Validate(s: string)
    ensures Validate(s) <==> Checksum(s)
  {
    Parse(s).Some?
  }

  // ---------------------------------------------------------------------------------------
  // Examples from lka.test.js

  const ConvertSample: string := "961203996V"

  /** '961203996V' becomes '199612003996'. */
  lemma ToNewExample()
    ensures ToNew(ConvertSample) == Some("199612003996")
  {
    assert Format(ConvertSample);
    assert "19" + ConvertSample[0..2] + ConvertSample[2..5] + "0" + ConvertSample[5..8]
      + ConvertSample[8..9] == "199612003996";
  }

  const Sample: string := "92" + "340" + "471" + "6" + "V"

  lemma DigitsOfSample()
    ensures Format(Sample)
    ensures Digits(Sample[..8]) == [9, 2, 3, 4, 0, 4, 7, 1] && Sample[8] == '6'
    ensures Sample[5..8] == "471" && Sample[9] == 'V'
  {
  }

  lemma SumOf92340471(es: seq<Digit>)
    requires es == [9, 2, 3, 4, 0, 4, 7, 1]
    ensures WeightedSum(es, OldWeights, 8) == 115
  {
    assert WeightedSum([9, 2, 3, 4, 0, 4, 7, 1], OldWeights, 8) == 115;
  }

  /** The new form sums to 44 + 115 = 159, remainder 5, so the check digit is 6. */
  lemma ChecksumExample()
    ensures Checksum(Sample)
  {
    DigitsOfSample();
    OldTotal(Sample);
    SumOf92340471(Digits(Sample[..8]));
    assert DigitValue(ToNew(Sample).value[11]) == 6;
  }

  /** '923404716V' parses to the new form's fields, serial '0471', checksum 6, and a
      citizen. */
  lemma ParseExample()
    ensures Parse(Sample).Some?
    ensures Parse(Sample).value.sn == "0471" && Parse(Sample).value.checksum == 6
    ensures Parse(Sample).value.citizenship == Citizen
  {
    DigitsOfSample();
    ChecksumExample();
    assert "0" + Sample[5..8] == "0471" && DigitValue(Sample[8]) == 6;
  }

  const NewSample: string := "199234004716"

  lemma ToNewOfSample()
    ensures ToNew(Sample) == Some(NewSample)
    ensures LkaNationalId.Format(NewSample)
    ensures Decimal(NewSample[..4]) == 1992 && LkaNationalId.Days(NewSample) == 340
  {
    assert Format(Sample);
    assert "19" + Sample[0..2] + Sample[2..5] + "0" + Sample[5..8] + Sample[8..9] == NewSample;
    assert NewSample[..4] == "1992" && NewSample[4..7] == "340";
    assert DecimalPrefix("1992", 4) == 1992 && DecimalPrefix("340", 3) == 340;
  }

  /** Day 339 of the leap year 1992 (counted from 0) is December 5. */
  lemma DecemberFifth1992()
    ensures Calendar.AddDays(1992, 339) == Calendar.Date(1992, 12, 5)
  {
    assert Calendar.MonthStart(1992, 12) == 335;
    Calendar.DayOfYearInjective(Calendar.AddDays(1992, 339), Calendar.Date(1992, 12, 5));
  }

  /** The birth date and gender Parse gives an old number, through its new form n. */
  lemma ParseBirth(s: string, n: string, year: int, days: nat)
    requires Checksum(s) && ToNew(s) == Some(n)
    requires Decimal(n[..4]) == year && LkaNationalId.Days(n) == days
    ensures Parse(s).Some?
    ensures Parse(s).value.birthDate ==
      Calendar.AddDays(Calendar.UtcYear(year), LkaNationalId.DayOffset(days))
    ensures Parse(s).value.gender == Male <==> days < 500
  {
  }

  /** '923404716V' is a man born on 1992-12-05. */
  lemma BirthExample()
    ensures Parse(Sample).Some?
    ensures Parse(Sample).value.birthDate == Calendar.Date(1992, 12, 5)
    ensures Parse(Sample).value.gender == Male
  {
    ChecksumExample();
    ToNewOfSample();
    assert Calendar.UtcYear(1992) == 1992 && LkaNationalId.DayOffset(340) == 339;
    DecemberFifth1992();
    ParseBirth(Sample, NewSample, 1992, 340);
  }
}
