/** The Turkish identity number (T.C. Kimlik No.): nine digits, a tenth digit from the alternating
    weighted sum 7, -1, 7, … of the first nine, and an eleventh digit from the plain sum of the
    first ten (tur/national_id.js). */
module TurNationalId {

  import opened Common
  import opened NationalIdUtil

  /** REGEXP: eleven digits, the first not 0. */
  predicate Format(s: string) {
    |s| == 11 && AllDigits(s) && s[0] != '0'
  }

  const Multipliers: seq<int> := [7, -1, 7, -1, 7, -1, 7, -1, 7]

  /** The weighted sum behind digit ten: seven times the digits at odd positions (first, third, …,
      ninth) less the digits at even positions. It can be negative. */
  function Total(s: string): int
    requires Format(s)
  {
    WeightedSum(Digits(s[..9]), Multipliers, 9)
  }

  /** The sum of the first n digits. */
  function Sum(ds: seq<Digit>, n: nat): nat
    requires n <= |ds|
  {
    if n == 0 then 0 else Sum(ds, n - 1) + ds[n - 1]
  }

  /** `digitEleven`: the sum of the first ten digits modulo 10. */
  function DigitEleven(s: string): (d: int)
    requires Format(s)
    ensures 0 <= d <= 9 && (Sum(Digits(s[..10]), 10) - d) % 10 == 0
  {
    Sum(Digits(s[..10]), 10) % 10
  }

  /** JavaScript's `${n}` of an integer: a '-' before the digits of a negative number. */
  function JsIntString(n: int): (t: string)
    ensures n >= 0 ==> t == NatString(n)
    ensures n < 0 ==> |t| >= 2 && t[0] == '-'
  {
    if n < 0 then "-" + NatString(-n) else NatString(n)
  }

  // ---------------------------------------------------------------------------------------
  // As written: digit ten is `weightedModulusDigit(…, 10, true)`, JavaScript's remainder

  /** `digitTen` as the code computes it: the remainder of the weighted sum, negative when the
      sum is, so that it differs from the sum by a multiple of 10 but lies in -9..9. */
  function DigitTenAsWritten(s: string): (d: int)
    requires Format(s)
    ensures (Total(s) - d) % 10 == 0
    ensures Total(s) >= 0 ==> 0 <= d <= 9
    ensures Total(s) < 0 ==> -9 <= d <= 0
  {
    WeightedModulusDigit(Digits(s[..9]), Some(Multipliers), 10, true).value
  }

  /** `checksum(idNumber)`: the text of digit ten followed by that of digit eleven. */
  function ChecksumAsWritten(s: string): (r: string)
    requires Format(s)
    ensures DigitTenAsWritten(s) >= 0 ==>
      |r| == 2 && AllDigits(r) && DigitValue(r[0]) == DigitTenAsWritten(s) && DigitValue(r[1]) == DigitEleven(s)
    ensures DigitTenAsWritten(s) < 0 ==> |r| == 3 && r[0] == '-'
  {
    JsIntString(DigitTenAsWritten(s)) + NatString(DigitEleven(s))
  }

  /** `validate(idNumber)` as written: the checksum text equals the last two characters. */
  predicate ValidateAsWritten(s: string)
    ensures ValidateAsWritten(s) <==>
      Format(s) && DigitTenAsWritten(s) == DigitValue(s[9]) && DigitEleven(s) == DigitValue(s[10])
  {
    Format(s) && ChecksumAsWritten(s) == s[9..]
  }

  /** A negative sum that is not a multiple of 10 makes digit ten negative, its text three
      characters long, and the number is rejected whatever its last two digits are. */
  lemma NegativeTotalRejectedAsWritten(s: string)
    requires Format(s) && Total(s) < 0 && Total(s) % 10 != 0
    ensures !ValidateAsWritten(s)
  {
    var d := DigitTenAsWritten(s);
    assert d != 0;
    assert |ChecksumAsWritten(s)| >= 3;
  }

  // ---------------------------------------------------------------------------------------
  // Corrected: digit ten is the weighted sum modulo 10, always a digit

  /** Digit ten as the identity number defines it: the one digit that differs from the weighted
      sum by a multiple of 10. */
  function DigitTen(s: string): (d: int)
    requires Format(s)
    ensures 0 <= d <= 9 && (Total(s) - d) % 10 == 0
  {
    Total(s) % 10
  }

  /** The two check digits: a digit can complete each sum in only one way. */
  lemma CheckDigitsUnique(s: string, d10: int, d11: int)
    requires Format(s) && 0 <= d10 <= 9 && 0 <= d11 <= 9
    requires (Total(s) - d10) % 10 == 0 && (Sum(Digits(s[..10]), 10) - d11) % 10 == 0
    ensures d10 == DigitTen(s) && d11 == DigitEleven(s)
  {
    ModUnique(Total(s) - d10, 10, (Total(s) - d10) / 10, 0);
    ModUnique(Total(s), 10, (Total(s) - d10) / 10, d10);
    var e := Sum(Digits(s[..10]), 10);
    ModUnique(e - d11, 10, (e - d11) / 10, 0);
    ModUnique(e, 10, (e - d11) / 10, d11);
  }

  /** `validate(idNumber)`: digits ten and eleven are the two check digits. */
  predicate Validate(s: string)
    ensures Validate(s) ==>
      Format(s) && (Total(s) - DigitValue(s[9])) % 10 == 0 && (Sum(Digits(s[..10]), 10) - DigitValue(s[10])) % 10 == 0
  {
    Format(s) && DigitValue(s[9]) == DigitTen(s) && DigitValue(s[10]) == DigitEleven(s)
  }

  /** A number is valid exactly when its tenth digit completes the weighted sum and its eleventh
      digit completes the sum of the first ten, modulo 10. */
  lemma ValidateMeaning(s: string)
    requires Format(s)
    ensures Validate(s) <==>
      (Total(s) - DigitValue(s[9])) % 10 == 0 && (Sum(Digits(s[..10]), 10) - DigitValue(s[10])) % 10 == 0
  {
    if (Total(s) - DigitValue(s[9])) % 10 == 0 && (Sum(Digits(s[..10]), 10) - DigitValue(s[10])) % 10 == 0 {
      CheckDigitsUnique(s, DigitValue(s[9]), DigitValue(s[10]));
    }
  }

  /** The text of one digit. */
  lemma NatStringDigit(n: nat)
    requires n < 10
    ensures NatString(n) == [DigitChar(n)]
  {
  }

  /** Both readings agree unless the weighted sum is negative and not a multiple of 10. */
  lemma AsWrittenAgrees(s: string)
    requires Format(s) && (Total(s) >= 0 || Total(s) % 10 == 0)
    ensures ValidateAsWritten(s) <==> Validate(s)
  {
    var d := DigitTenAsWritten(s);
    assert 0 <= d <= 9;
    ModUnique(Total(s), 10, (Total(s) - d) / 10, d);
    assert d == DigitTen(s);
    NatStringDigit(d);
    NatStringDigit(DigitEleven(s));
    var c := ChecksumAsWritten(s);
    assert c == [DigitChar(d), DigitChar(DigitEleven(s))];
    assert s[9..] == [s[9], s[10]];
    if Validate(s) {
      assert DigitChar(DigitValue(s[9])) == s[9] && DigitChar(DigitValue(s[10])) == s[10];
    }
    if ValidateAsWritten(s) {
      assert DigitValue(DigitChar(d)) == d && DigitValue(DigitChar(DigitEleven(s))) == DigitEleven(s);
    }
  }

  // ---------------------------------------------------------------------------------------
  // Examples from tur.test.js, and one the code rejects

  /** Checks an identity number through its digit values, weighted sum and digit sum. */
  lemma ValidByDigits(s: string, ds: seq<Digit>, total: int, sum: nat)
    requires Format(s) && Digits(s) == ds
    requires WeightedSum(ds, Multipliers, 9) == total && Sum(ds, 10) == sum
    ensures Total(s) == total && Sum(Digits(s[..10]), 10) == sum
    ensures Validate(s) <==> DigitValue(s[9]) == total % 10 && DigitValue(s[10]) == sum % 10
  {
    assert Digits(s[..9])[..9] == ds[..9];
    WeightedSumPrefix(Digits(s[..9]), Multipliers, ds, Multipliers, 9);
    SumPrefix(Digits(s[..10]), ds, 10);
  }

  lemma {:induction false} SumPrefix(ds: seq<Digit>, es: seq<Digit>, n: nat)
    requires n <= |ds| && n <= |es| && ds[..n] == es[..n]
    ensures Sum(ds, n) == Sum(es, n)
  {
    if n > 0 {
      assert ds[..n - 1] == ds[..n][..n - 1] && es[..n - 1] == es[..n][..n - 1];
      assert ds[n - 1] == ds[..n][n - 1] && es[n - 1] == es[..n][n - 1];
      SumPrefix(ds, es, n - 1);
    }
  }

  const Sample1: string := "10000000146"
  const Wrong1: string := "10000000145"
  const Sample2: string := "15973515680"
  /** A number whose weighted sum 1·7 - 4·9 = -29 is negative. */
  const NegativeSample: string := "19090909018"

  lemma DigitsOfSamples()
    ensures Format(Sample1) && Format(Wrong1) && Format(Sample2) && Format(NegativeSample)
    ensures Digits(Sample1) == [1, 0, 0, 0, 0, 0, 0, 0, 1, 4, 6]
    ensures Digits(Wrong1) == [1, 0, 0, 0, 0, 0, 0, 0, 1, 4, 5]
    ensures Digits(Sample2) == [1, 5, 9, 7, 3, 5, 1, 5, 6, 8, 0]
    ensures Digits(NegativeSample) == [1, 9, 0, 9, 0, 9, 0, 9, 0, 1, 8]
  {
  }

  lemma SumsOf10000000146(ds: seq<Digit>)
    requires ds == [1, 0, 0, 0, 0, 0, 0, 0, 1, 4, 6]
    ensures WeightedSum(ds, Multipliers, 9) == 14 && Sum(ds, 10) == 6
  {
    assert WeightedSum([1, 0, 0, 0, 0, 0, 0, 0, 1, 4, 6], Multipliers, 9) == 14;
    assert Sum([1, 0, 0, 0, 0, 0, 0, 0, 1, 4, 6], 10) == 6;
  }

  lemma SumsOf10000000145(ds: seq<Digit>)
    requires ds == [1, 0, 0, 0, 0, 0, 0, 0, 1, 4, 5]
    ensures WeightedSum(ds, Multipliers, 9) == 14 && Sum(ds, 10) == 6
  {
    assert WeightedSum([1, 0, 0, 0, 0, 0, 0, 0, 1, 4, 5], Multipliers, 9) == 14;
    assert Sum([1, 0, 0, 0, 0, 0, 0, 0, 1, 4, 5], 10) == 6;
  }

  lemma SumsOf1597351568(ds: seq<Digit>)
    requires ds == [1, 5, 9, 7, 3, 5, 1, 5, 6, 8, 0]
    ensures WeightedSum(ds, Multipliers, 9) == 118 && Sum(ds, 10) == 50
  {
    assert WeightedSum([1, 5, 9, 7, 3, 5, 1, 5, 6, 8, 0], Multipliers, 9) == 118;
    assert Sum([1, 5, 9, 7, 3, 5, 1, 5, 6, 8, 0], 10) == 50;
  }

  lemma SumsOf1909090901(ds: seq<Digit>)
    requires ds == [1, 9, 0, 9, 0, 9, 0, 9, 0, 1, 8]
    ensures WeightedSum(ds, Multipliers, 9) == -29 && Sum(ds, 10) == 38
  {
    assert WeightedSum([1, 9, 0, 9, 0, 9, 0, 9, 0, 1, 8], Multipliers, 9) == -29;
    assert Sum([1, 9, 0, 9, 0, 9, 0, 9, 0, 1, 8], 10) == 38;
  }

  /** '10000000146': 14 gives digit ten 4, and 1 + 1 + 4 = 6 gives digit eleven; '10000000145'
      fails the second check. */
  lemma FirstExample()
    ensures Validate(Sample1) && ValidateAsWritten(Sample1)
    ensures !Validate(Wrong1) && !ValidateAsWritten(Wrong1)
  {
    DigitsOfSamples();
    SumsOf10000000146(Digits(Sample1));
    SumsOf10000000145(Digits(Wrong1));
    ValidByDigits(Sample1, Digits(Sample1), 14, 6);
    ValidByDigits(Wrong1, Digits(Wrong1), 14, 6);
    AsWrittenAgrees(Sample1);
    AsWrittenAgrees(Wrong1);
  }

  /** '15973515680': 140 - 22 = 118 gives 8, and the first ten digits sum to 50. */
  lemma SecondExample()
    ensures Validate(Sample2) && ValidateAsWritten(Sample2)
  {
    DigitsOfSamples();
    SumsOf1597351568(Digits(Sample2));
    ValidByDigits(Sample2, Digits(Sample2), 118, 50);
    AsWrittenAgrees(Sample2);
  }

  /** '00000000178' starts with 0. */
  lemma LeadingZeroExample()
    ensures !Validate("00000000178") && !ValidateAsWritten("00000000178")
  {
  }

  /** '19090909018': -29 is 1 modulo 10 and the first ten digits sum to 38, so both check digits
      hold; the code computes digit ten as -9 and rejects the number. */
  lemma NegativeTotalExample()
    ensures Validate(NegativeSample) && !ValidateAsWritten(NegativeSample)
  {
    DigitsOfSamples();
    SumsOf1909090901(Digits(NegativeSample));
    ValidByDigits(NegativeSample, Digits(NegativeSample), -29, 38);
    NegativeTotalRejectedAsWritten(NegativeSample);
  }
}
