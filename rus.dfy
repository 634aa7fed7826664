/** The Russian insurance account number (SNILS): nine digits and a two-digit check number, the
    weighted sum of the nine digits reduced modulo 101 (rus/snils.js). */
module RusSnils {

  import opened Common

  /** The groups of REGEXP: three, three and three digits joined by an optional '-', then one
      optional whitespace character and the two check digits. The eleven digits, or None. */
  function Groups(s: string): (r: Option<string>)
    ensures r.Some? ==> AllDigits(r.value) && |r.value| == 11
  {
    Layout(s, [3, 3, 3, 2], [{'-'}, {'-'}, JsWhitespace])
  }

  predicate Format(s: string) {
    Groups(s).Some?
  }

  /** Weights 9 - i of the nine base digits. */
  const Weights: seq<int> := [9, 8, 7, 6, 5, 4, 3, 2, 1]

  /** `checkSum` of a weighted sum: the sum itself below 100, 0 for 100 and 101, else the
      remainder modulo 101 unless that is 100. In closed form: the remainder modulo 101, with
      100 read as 0; always a two-digit number. */
  function CheckNumber(sum: nat): (r: nat)
    ensures r <= 99
    ensures r == (if sum % 101 == 100 then 0 else sum % 101)
    ensures sum < 100 ==> r == sum
  {
    if sum < 100 then sum
    else if sum == 100 || sum == 101 then 0
    else if sum % 101 < 100 then sum % 101
    else 0
  }

  /** The weighted sum of nine digits. */
  function Total(ds: seq<Digit>): nat
    requires |ds| == 9
  {
    WeightedSumNonnegative(ds, Weights, 9);
    WeightedSum(ds, Weights, 9)
  }

  /** What `checksum` decides: the format holds and the two check digits spell the check number
      of the nine base digits. */
  predicate HasValidCheckNumber(s: string) {
    Format(s) && var t := Groups(s).value; CheckNumber(Total(Digits(t[..9]))) == Decimal(t[9..])
  }

  /** `checksum(idNumber)`: accumulates the weighted sum, then reduces it. */
  method Checksum(idNumber: string) returns (ok: bool)
    ensures ok <==> HasValidCheckNumber(idNumber)
  {
    var groups := Groups(idNumber);
    if groups.None? {
      return false;
    }
    var baseNumber := Digits(groups.value[..9]);
    var expectedCheck := Decimal(groups.value[9..]);
    var sum: int := 0;
    var i := 0;
    while i < 9
      invariant 0 <= i <= 9
      invariant sum == WeightedSum(baseNumber, Weights, i)
    {
      sum := sum + baseNumber[i] as int * (9 - i);
      i := i + 1;
    }
    WeightedSumNonnegative(baseNumber, Weights, 9);
    var checkSum: int;
    if sum < 100 {
      checkSum := sum;
    } else if sum == 100 || sum == 101 {
      checkSum := 0;
    } else {
      checkSum := sum % 101;
      if checkSum >= 100 {
        checkSum := 0;
      }
    }
    ok := checkSum == expectedCheck;
  }

  /** Two numbers with the same base digits and the same layout differ in validity when their
      check digits differ: only one check part completes nine base digits. */
  lemma CheckNumberUnique(s: string, t: string)
    requires HasValidCheckNumber(s) && Format(t)
    requires Groups(s).value[..9] == Groups(t).value[..9]
    requires Groups(s).value[9..] != Groups(t).value[9..]
    ensures !HasValidCheckNumber(t)
  {
    var u, v := Groups(s).value[9..], Groups(t).value[9..];
    assert DecimalPrefix(u, 1) == DigitValue(u[0]) && DecimalPrefix(v, 1) == DigitValue(v[0]);
    if u[0] == v[0] {
      assert u[1] != v[1];
    } else {
      assert DigitValue(u[0]) != DigitValue(v[0]);
    }
  }

  /** What `parse` returns (the gender is always UNKNOWN and is not modelled). */
  datatype Snils = Snils(number: string, cleanNumber: string)

  /** `parse(idNumber)`: None unless the check number holds; the clean number is the four groups
      joined, which is the input with its separators removed. */
  function Parse(s: string): (r: Option<Snils>)
    ensures r.Some? <==> HasValidCheckNumber(s)
    ensures r.Some? ==> r.value.number == s && r.value.cleanNumber == Groups(s).value
  {
    if !HasValidCheckNumber(s) then None
    else Some(Snils(s, Groups(s).value))
  }

  /** The clean number of a parsed SNILS is the input without its '-' and whitespace
      characters. */
  lemma CleanNumberIsStripped(s: string)
    requires Parse(s).Some?
    ensures Parse(s).value.cleanNumber == Without(s, {'-'} + JsWhitespace)
    ensures AllDigits(Parse(s).value.cleanNumber) && |Parse(s).value.cleanNumber| == 11
  {
    var cs := {'-'} + JsWhitespace;
    JsWhitespaceNotDigits();
    assert forall c :: c in cs ==> !IsDigit(c);
    LayoutWithout(s, [3, 3, 3, 2], [{'-'}, {'-'}, JsWhitespace], cs);
  }

  /** `validate(idNumber)`. */
  predicate Validate(s: string)
    ensures Validate(s) <==> HasValidCheckNumber(s)
  {
    Format(s) && Parse(s).Some?
  }

  // ---------------------------------------------------------------------------------------
  // Examples

  /** Eleven bare digits have the layout, and are their own groups. */
  lemma GroupsUndelimited(s: string)
    requires AllDigits(s) && |s| == 11
    ensures Groups(s) == Some(s)
  {
    JsWhitespaceNotDigits();
    LayoutAllDigits(s, [3, 3, 3, 2], [{'-'}, {'-'}, JsWhitespace]);
  }

  /** The check number of eleven bare digits, through the base digit values and their sum. */
  lemma ValidByDigits(s: string, ds: seq<Digit>, sum: nat)
    requires AllDigits(s) && |s| == 11
    requires Digits(s[..9]) == ds && Total(ds) == sum
    ensures HasValidCheckNumber(s) <==> CheckNumber(sum) == Decimal(s[9..])
  {
    GroupsUndelimited(s);
  }

  /** A number the code accepts: '123456789' sums to 165, whose check number is 64. */
  const ValidSample: string := "12345678964"
  /** rus.test.js lists it as valid, but its check part 01 is not 64. */
  const TestSample: string := "12345678901"

  lemma SumOf123456789(ds: seq<Digit>)
    requires ds == [1, 2, 3, 4, 5, 6, 7, 8, 9]
    ensures Total(ds) == 165
  {
    assert Total([1, 2, 3, 4, 5, 6, 7, 8, 9]) == 165;
  }

  lemma DigitsOfSamples()
    ensures AllDigits(ValidSample) && |ValidSample| == 11
    ensures AllDigits(TestSample) && |TestSample| == 11
    ensures Digits(ValidSample[..9]) == [1, 2, 3, 4, 5, 6, 7, 8, 9]
    ensures Digits(TestSample[..9]) == [1, 2, 3, 4, 5, 6, 7, 8, 9]
    ensures ValidSample[9..] == "64" && TestSample[9..] == "01"
  {
  }

  lemma DecimalOfChecks()
    ensures Decimal("64") == 64 && Decimal("01") == 1
  {
    assert DecimalPrefix("64", 2) == 64 && DecimalPrefix("01", 2) == 1;
  }

  /** 165 is above 101, so the check number is 165 mod 101 = 64: '12345678964' is valid and
      the test's '12345678901' is not. */
  lemma ValidExample()
    ensures HasValidCheckNumber(ValidSample)
  {
    DigitsOfSamples();
    SumOf123456789(Digits(ValidSample[..9]));
    DecimalOfChecks();
    ValidByDigits(ValidSample, Digits(ValidSample[..9]), 165);
  }

  lemma RejectedTestVector()
    ensures !HasValidCheckNumber(TestSample)
  {
    DigitsOfSamples();
    SumOf123456789(Digits(TestSample[..9]));
    DecimalOfChecks();
    ValidByDigits(TestSample, Digits(TestSample[..9]), 165);
  }

  /** The valid number written with separators. */
  const DashedSample: string := "123-456-789 64"

  lemma GroupsOfDashedSample()
    ensures Groups(DashedSample) == Some(ValidSample)
  {
    assert DashedSample[0..3] == "123" && DashedSample[4..7] == "456";
    assert DashedSample[8..11] == "789" && DashedSample[12..14] == "64";
    assert DashedSample[3] == '-' && DashedSample[7] == '-' && DashedSample[11] in JsWhitespace;
    assert "123" + ("456" + ("789" + "64")) == ValidSample;
  }

  /** rus.test.js's layout '123-456-789 ..' parses to the clean number of its digits. */
  lemma ParseExample()
    ensures Parse(DashedSample).Some?
    ensures Parse(DashedSample).value.cleanNumber == ValidSample
  {
    GroupsOfDashedSample();
    ValidExample();
    GroupsUndelimited(ValidSample);
  }

  /** The reduction's edge cases: 100 and 101 give 0, 202 gives 0 and 201 gives 100 read as 0. */
  lemma CheckNumberEdges()
    ensures CheckNumber(99) == 99 && CheckNumber(100) == 0 && CheckNumber(101) == 0
    ensures CheckNumber(102) == 1 && CheckNumber(201) == 0 && CheckNumber(202) == 0
  {
  }
}
