/** The Irish Personal Public Service (PPS) number: seven digits, a check letter and an optional
    second letter; the weighted digits and eight times the check letter's value add up to a
    multiple of 23 (irl/pps_number.js). */
module IrlPpsNumber {

  import opened Common

  /** REGEXP: seven digits, a check letter A..W, then optionally a letter A..I. */
  predicate Format(s: string) {
    (|s| == 8 || |s| == 9) && AllDigits(s[..7]) && 'A' <= s[7] <= 'W' && (|s| == 9 ==> 'A' <= s[8] <= 'I')
  }

  /** `getLetterValue(letter)`: the letter's place in A..W once J, K and O are skipped, and 0 for
      J, K, O and any other character. */
  function LetterValue(c: char): (v: nat)
    ensures 'A' <= c <= 'I' ==> v == c as int - 'A' as int + 1
    ensures 'L' <= c <= 'N' ==> v == c as int - 'A' as int - 1
    ensures 'P' <= c <= 'W' ==> v == c as int - 'A' as int - 2
    ensures v == 0 <==> !('A' <= c <= 'W') || c == 'J' || c == 'K' || c == 'O'
    ensures v <= 20
  {
    match c
    case 'A' => 1 case 'B' => 2 case 'C' => 3 case 'D' => 4 case 'E' => 5 case 'F' => 6
    case 'G' => 7 case 'H' => 8 case 'I' => 9 case 'L' => 10 case 'M' => 11 case 'N' => 12
    case 'P' => 13 case 'Q' => 14 case 'R' => 15 case 'S' => 16 case 'T' => 17 case 'U' => 18
    case 'V' => 19 case 'W' => 20
    case _ => 0
  }

  /** Different letters with a value have different values. */
  lemma LetterValueInjective(a: char, b: char)
    requires LetterValue(a) != 0 && LetterValue(a) == LetterValue(b)
    ensures a == b
  {
  }

  const Weights: seq<int> := [1, 2, 3, 4, 5, 6, 7, 8, 9]

  /** The digits weighted by their positions 1..7, plus eight times the check letter's value. */
  function Total(s: string): int
    requires Format(s)
  {
    WeightedSum(Digits(s[..7]), Weights, 7) + LetterValue(s[7]) * 8
  }

  // ---------------------------------------------------------------------------------------
  // As written: the check letters J, K and O count as 0

  /** What `checksum` decides: the format holds and the total is a multiple of 23. */
  predicate HasValidChecksum(s: string) {
    Format(s) && Total(s) % 23 == 0
  }

  /** `checksum(idNumber)`: the loop over the seven digits, then the check letter. */
  method Checksum(idNumber: string) returns (ok: bool)
    ensures ok <==> HasValidChecksum(idNumber)
  {
    if !Format(idNumber) {
      return false;
    }
    var digits := Digits(idNumber[..7]);
    var sum: int := 0;
    var i := 0;
    while i < 7
      invariant 0 <= i <= 7
      invariant sum == WeightedSum(digits, Weights, i)
    {
      sum := sum + digits[i] as int * Weights[i];
      i := i + 1;
    }
    var checkLetterValue := LetterValue(idNumber[7]);
    sum := sum + checkLetterValue * 8;
    ok := sum % 23 == 0;
  }

  /** The optional second letter plays no part in the checksum. */
  lemma SecondLetterIrrelevant(s: string, c: char)
    requires Format(s) && |s| == 8 && 'A' <= c <= 'I'
    ensures Format(s + [c]) && (HasValidChecksum(s + [c]) <==> HasValidChecksum(s))
  {
    assert (s + [c])[..7] == s[..7] && (s + [c])[7] == s[7];
  }

  /** No multiple of 23 is a nonzero multiple of 8 below 8 · 23. */
  lemma EightTimesNotMultiple(d: int)
    requires -23 < d < 23 && d != 0
    ensures (8 * d) % 23 != 0
  {
  }

  /** For given digits at most one check letter passes: letters with values a and b complete the
      same digit sum to multiples of 23 only when a = b. */
  lemma CheckLetterUnique(s: string, t: string)
    requires HasValidChecksum(s) && HasValidChecksum(t) && s[..7] == t[..7]
    requires LetterValue(s[7]) != 0
    ensures s[7] == t[7]
  {
    var w := WeightedSum(Digits(s[..7]), Weights, 7);
    var a, b := LetterValue(s[7]), LetterValue(t[7]);
    if a != b {
      assert (w + a * 8) % 23 == 0 && (w + b * 8) % 23 == 0;
      var p, q := (w + a * 8) / 23, (w + b * 8) / 23;
      assert 8 * (a - b) == 23 * (p - q);
      ModUnique(8 * (a - b), 23, p - q, 0);
      EightTimesNotMultiple(a - b);
    }
    LetterValueInjective(s[7], t[7]);
  }

  /** What `parse` returns (the gender is always UNKNOWN and is not modelled). */
  datatype PpsNumber = PpsNumber(number: string, digits: string, checkLetter: char,
                                 secondLetter: Option<char>)

  /** `parse(idNumber)` as written: None unless the format holds and the checksum passes. */
  function ParseAsWritten(s: string): (r: Option<PpsNumber>)
    ensures r.Some? <==> HasValidChecksum(s)
    ensures r.Some? ==> r.value.number == s && r.value.digits == s[..7] && r.value.checkLetter == s[7]
    ensures r.Some? ==> (r.value.secondLetter.None? <==> |s| == 8)
    ensures r.Some? && |s| == 9 ==> r.value.secondLetter == Some(s[8])
  {
    if !Format(s) || !HasValidChecksum(s) then None
    else Some(PpsNumber(s, s[..7], s[7], if |s| == 9 then Some(s[8]) else None))
  }

  /** `validate(idNumber)` as written. */
  predicate ValidateAsWritten(s: string)
    ensures ValidateAsWritten(s) <==> Format(s) && Total(s) % 23 == 0
  {
    Format(s) && ParseAsWritten(s).Some?
  }

  /** As written, a check letter J, K or O is accepted whenever the weighted digits alone are a
      multiple of 23. */
  lemma SkippedLettersAcceptedAsWritten(s: string)
    requires Format(s) && (s[7] == 'J' || s[7] == 'K' || s[7] == 'O')
    ensures ValidateAsWritten(s) <==> WeightedSum(Digits(s[..7]), Weights, 7) % 23 == 0
  {
  }

  // ---------------------------------------------------------------------------------------
  // Corrected: J, K and O are not check letters

  /** A valid PPS number: the checksum passes with a check letter that has a value. */
  predicate HasValidCheckLetter(s: string) {
    HasValidChecksum(s) && LetterValue(s[7]) != 0
  }

  /** `parse(idNumber)`, with the check letters J, K and O rejected. */
  function Parse(s: string): (r: Option<PpsNumber>)
    ensures r.Some? <==> HasValidCheckLetter(s)
    ensures r.Some? ==> r == ParseAsWritten(s)
    ensures r.Some? ==> s[7] != 'J' && s[7] != 'K' && s[7] != 'O'
  {
    if !HasValidCheckLetter(s) then None else ParseAsWritten(s)
  }

  /** `validate(idNumber)`, corrected. */
  predicate Validate(s: string)
    ensures Validate(s) <==> HasValidCheckLetter(s)
  {
    Format(s) && Parse(s).Some?
  }

  /** The correction only removes the numbers whose check letter is J, K or O. */
  lemma ValidateCorrection(s: string)
    ensures Validate(s) <==> ValidateAsWritten(s) && s[7] != 'J' && s[7] != 'K' && s[7] != 'O'
  {
  }

  // ---------------------------------------------------------------------------------------
  // Examples from irl.test.js

  lemma LetterValueExamples()
    ensures LetterValue('A') == 1 && LetterValue('B') == 2 && LetterValue('T') == 17
    ensures LetterValue('W') == 20
    ensures LetterValue('J') == 0 && LetterValue('K') == 0 && LetterValue('O') == 0
  {
  }

  /** The checksum through the digit values and their weighted sum. */
  lemma ValidByDigits(s: string, ds: seq<Digit>, sum: int)
    requires Format(s) && Digits(s[..7]) == ds && WeightedSum(ds, Weights, 7) == sum
    ensures HasValidChecksum(s) <==> (sum + LetterValue(s[7]) * 8) % 23 == 0
  {
  }

  const Sample: string := "1234567T"
  const SampleWithSecond: string := "1234567TA"
  const WrongLetter: string := "1234567A"
  const TestSample: string := "9876543W"
  const WrongTestSample: string := "9876543A"
  /** Seven zeros and a skipped letter. */
  const SkippedLetterSample: string := "0000000J"

  lemma DigitsOfSamples()
    ensures Format(Sample) && Format(SampleWithSecond) && Format(WrongLetter)
    ensures Format(TestSample) && Format(WrongTestSample) && Format(SkippedLetterSample)
    ensures Digits(Sample[..7]) == [1, 2, 3, 4, 5, 6, 7] && Sample[7] == 'T'
    ensures SampleWithSecond == Sample + ['A'] && WrongLetter[..7] == Sample[..7]
    ensures WrongLetter[7] == 'A'
    ensures Digits(TestSample[..7]) == [9, 8, 7, 6, 5, 4, 3] && TestSample[7] == 'W'
    ensures WrongTestSample[..7] == TestSample[..7] && WrongTestSample[7] == 'A'
    ensures Digits(SkippedLetterSample[..7]) == [0, 0, 0, 0, 0, 0, 0] && SkippedLetterSample[7] == 'J'
  {
  }

  lemma SumOf1234567(ds: seq<Digit>)
    requires ds == [1, 2, 3, 4, 5, 6, 7]
    ensures WeightedSum(ds, Weights, 7) == 140
  {
    assert WeightedSum([1, 2, 3, 4, 5, 6, 7], Weights, 7) == 140;
  }

  lemma SumOf9876543(ds: seq<Digit>)
    requires ds == [9, 8, 7, 6, 5, 4, 3]
    ensures WeightedSum(ds, Weights, 7) == 140
  {
    assert WeightedSum([9, 8, 7, 6, 5, 4, 3], Weights, 7) == 140;
  }

  lemma SumOfZeros(ds: seq<Digit>)
    requires ds == [0, 0, 0, 0, 0, 0, 0]
    ensures WeightedSum(ds, Weights, 7) == 0
  {
    assert WeightedSum([0, 0, 0, 0, 0, 0, 0], Weights, 7) == 0;
  }

  /** '1234567T': 140 + 8 · 17 = 276 = 12 · 23; '1234567A' gives 148. */
  lemma ChecksumExamples()
    ensures HasValidChecksum(Sample) && HasValidChecksum(SampleWithSecond)
    ensures !HasValidChecksum(WrongLetter)
  {
    DigitsOfSamples();
    SumOf1234567(Digits(Sample[..7]));
    ValidByDigits(Sample, Digits(Sample[..7]), 140);
    ValidByDigits(WrongLetter, Digits(Sample[..7]), 140);
    SecondLetterIrrelevant(Sample, 'A');
  }

  /** '1234567T' and '1234567TA' parse, the second with its second letter. */
  lemma ParseExamples()
    ensures Parse(Sample) == Some(PpsNumber(Sample, "1234567", 'T', None))
    ensures Parse(SampleWithSecond) == Some(PpsNumber(SampleWithSecond, "1234567", 'T', Some('A')))
    ensures Parse(WrongLetter).None?
  {
    ChecksumExamples();
    DigitsOfSamples();
    assert Sample[..7] == "1234567" && SampleWithSecond[..7] == "1234567";
  }

  /** irl.test.js lists '9876543W' as valid, but 140 + 8 · 20 = 300 leaves 1 modulo 23; '9876543A'
      (148) fails as the test expects. */
  lemma RejectedTestVector()
    ensures !HasValidChecksum(TestSample) && !HasValidChecksum(WrongTestSample)
  {
    DigitsOfSamples();
    SumOf9876543(Digits(TestSample[..7]));
    ValidByDigits(TestSample, Digits(TestSample[..7]), 140);
    ValidByDigits(WrongTestSample, Digits(TestSample[..7]), 140);
  }

  /** '0000000J': the digits sum to 0 and J counts as 0, so the code accepts the number; with J
      excluded as a check letter it is rejected. */
  lemma SkippedLetterExample()
    ensures ValidateAsWritten(SkippedLetterSample) && !Validate(SkippedLetterSample)
  {
    DigitsOfSamples();
    SumOfZeros(Digits(SkippedLetterSample[..7]));
    ValidByDigits(SkippedLetterSample, Digits(SkippedLetterSample[..7]), 0);
  }

  const TooShort: string := "123456T"
  const TooLong: string := "12345678T"
  const LowerCase: string := "123456aT"
  const LetterX: string := "1234567X"
  const SecondJ: string := "1234567TJ"
  const Dashed: string := "123-456-7T"

  /** Inputs without the format. */
  lemma FormatExamples()
    ensures !Format(TooShort) && !Format(TooLong) && !Format(LowerCase) && !Format(LetterX)
    ensures !Format(SecondJ) && !Format(Dashed) && !Format("")
  {
    assert !IsDigit(TooShort[..7][6]) && !IsDigit(LowerCase[..7][6]) && !IsDigit(Dashed[..7][3]);
    assert TooLong[7] == '8' && LetterX[7] == 'X' && SecondJ[8] == 'J';
  }
}
