/** The New Zealand IRD (Inland Revenue Department) number: eight or nine digits, read as nine
    with a leading zero, whose last digit is a mod-11 check digit; a weighted sum with remainder
    1 has no check digit (nzl/ird_number.js). */
module NzlIrdNumber {

  import opened Common

  /** REGEXP: eight or nine digits. */
  predicate Format(s: string) {
    (|s| == 8 || |s| == 9) && AllDigits(s)
  }

  /** `padStart(9, '0')` of a well-formed number. */
  function Padded(s: string): (p: string)
    requires Format(s)
    ensures |p| == 9 && AllDigits(p)
  {
    if |s| == 8 then "0" + s else s
  }

  const Weights: seq<int> := [3, 2, 7, 6, 5, 4, 3, 2]

  /** `checkDigit` of a weighted sum: 0 for remainder 0, none for remainder 1 (the number is
      rejected), else 11 minus the remainder; the one digit that makes the sum plus the digit a
      multiple of 11. */
  function CheckDigitFor(sum: int): (r: Option<int>)
    ensures r.None? <==> sum % 11 == 1
    ensures r.Some? ==> 0 <= r.value <= 9 && (sum + r.value) % 11 == 0
  {
    var remainder := sum % 11;
    if remainder == 0 then Some(0)
    else if remainder == 1 then None
    else
      ModComplement(sum, 11);
      Some(11 - remainder)
  }

  /** A remainder of 1 would need the check digit 10: no digit completes such a sum, and where
      there is a check digit, no other digit completes the sum. */
  lemma CheckDigitForComplete(sum: int, c: int)
    requires 0 <= c <= 9 && (sum + c) % 11 == 0
    ensures CheckDigitFor(sum) == Some(c)
  {
    var q := sum / 11;
    assert sum == 11 * q + sum % 11;
    assert (sum + c) % 11 == (sum % 11 + c) % 11;
  }

  /** The weighted sum of the first eight digits of the padded number. */
  function Total(s: string): int
    requires Format(s)
  {
    WeightedSum(Digits(Padded(s)), Weights, 8)
  }

  /** What `checksum` decides. */
  predicate HasValidCheckDigit(s: string) {
    Format(s) && CheckDigitFor(Total(s)) == Some(DigitValue(Padded(s)[8]))
  }

  /** The check is the mod-11 identity of the weighted digits. */
  lemma CheckDigitMeaning(s: string)
    requires Format(s)
    ensures HasValidCheckDigit(s) <==> (Total(s) + DigitValue(Padded(s)[8])) % 11 == 0
  {
    if (Total(s) + DigitValue(Padded(s)[8])) % 11 == 0 {
      CheckDigitForComplete(Total(s), DigitValue(Padded(s)[8]));
    }
  }

  /** `checksum(idNumber)`. */
  method Checksum(idNumber: string) returns (ok: bool)
    ensures ok <==> HasValidCheckDigit(idNumber)
  {
    if !Format(idNumber) {
      return false;
    }
    var paddedId := Padded(idNumber);
    var digits := Digits(paddedId);
    var sum := 0;
    var i := 0;
    while i < 8
      invariant 0 <= i <= 8
      invariant sum == WeightedSum(digits, Weights, i)
    {
      sum := sum + digits[i] * Weights[i];
      i := i + 1;
    }
    var remainder := sum % 11;
    var checkDigit: int;
    if remainder == 0 {
      checkDigit := 0;
    } else if remainder == 1 {
      return false;
    } else {
      checkDigit := 11 - remainder;
    }
    ok := checkDigit == digits[8];
  }

  /** An eight-digit number and the same number with a leading zero are the same IRD number. */
  lemma LeadingZeroIrrelevant(s: string)
    requires |s| == 8 && AllDigits(s)
    ensures HasValidCheckDigit(s) <==> HasValidCheckDigit("0" + s)
  {
    assert Padded(s) == Padded("0" + s);
  }

  /** What `parse` returns (the gender is always UNKNOWN and is not modelled). */
  datatype IrdNumber = IrdNumber(number: string)

  /** `parse(idNumber)`. */
  function Parse(s: string): (r: Option<IrdNumber>)
    ensures r.Some? <==> HasValidCheckDigit(s)
    ensures r.Some? ==> r.value.number == s
  {
    if !HasValidCheckDigit(s) then None else Some(IrdNumber(s))
  }

  /** `validate(idNumber)`. */
  predicate Validate(s: string)
    ensures Validate(s) <==> HasValidCheckDigit(s)
  {
    Format(s) && Parse(s).Some?
  }

  // ---------------------------------------------------------------------------------------
  // Examples from nzl.test.js

  /** The check of an eight-digit number through its padded digit values and their sum. */
  lemma ValidByDigits(s: string, ds: seq<Digit>, sum: int)
    requires |s| == 8 && AllDigits(s)
    requires Digits("0" + s) == ds && WeightedSum(ds, Weights, 8) == sum
    ensures HasValidCheckDigit(s) <==> CheckDigitFor(sum) == Some(ds[8])
  {
  }

  const ValidSample: string := "49091850"
  const TestSample: string := "12345678"

  lemma DigitsOfSamples()
    ensures |ValidSample| == 8 && AllDigits(ValidSample)
    ensures |TestSample| == 8 && AllDigits(TestSample)
    ensures Digits("0" + ValidSample) == [0, 4, 9, 0, 9, 1, 8, 5, 0]
    ensures Digits("0" + TestSample) == [0, 1, 2, 3, 4, 5, 6, 7, 8]
  {
  }

  lemma SumOf04909185(ds: seq<Digit>)
    requires ds == [0, 4, 9, 0, 9, 1, 8, 5, 0]
    ensures WeightedSum(ds, Weights, 8) == 154
  {
    assert WeightedSum([0, 4, 9, 0, 9, 1, 8, 5, 0], Weights, 8) == 154;
  }

  lemma SumOf01234567(ds: seq<Digit>)
    requires ds == [0, 1, 2, 3, 4, 5, 6, 7, 8]
    ensures WeightedSum(ds, Weights, 8) == 106
  {
    assert WeightedSum([0, 1, 2, 3, 4, 5, 6, 7, 8], Weights, 8) == 106;
  }

  /** '49091850': 154 is a multiple of 11, so the check digit is 0. */
  lemma ValidExample()
    ensures HasValidCheckDigit(ValidSample)
  {
    DigitsOfSamples();
    SumOf04909185(Digits("0" + ValidSample));
    ValidByDigits(ValidSample, Digits("0" + ValidSample), 154);
  }

  /** nzl.test.js lists '12345678' as valid, but its sum 106 leaves 7, so the check digit is 4,
      not 8. */
  lemma RejectedTestVector()
    ensures !HasValidCheckDigit(TestSample)
  {
    DigitsOfSamples();
    SumOf01234567(Digits("0" + TestSample));
    ValidByDigits(TestSample, Digits("0" + TestSample), 106);
  }

  /** '136410132' sums to 89, remainder 1: rejected whatever its last digit. */
  lemma RemainderOneExample(d: char)
    requires IsDigit(d)
    ensures !HasValidCheckDigit("13641013" + [d])
  {
    var s := "13641013" + [d];
    assert Padded(s) == s;
    assert Digits(s)[..8] == [1, 3, 6, 4, 1, 0, 1, 3];
    WeightedSumPrefix(Digits(s), Weights, [1, 3, 6, 4, 1, 0, 1, 3], Weights, 8);
    assert WeightedSum([1, 3, 6, 4, 1, 0, 1, 3], Weights, 8) == 89;
  }
}
