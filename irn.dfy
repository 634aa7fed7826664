/** The Iranian national ID number (kart-e-meli): nine digits and a mod-11 check digit, written
    with optional dashes after the third and the ninth digit (irn/national_id.js). */
module IrnNationalId {

  import opened Common
  import opened NationalIdUtil

  /** The group lengths and the separators of REGEXP. */
  const Lens: seq<nat> := [3, 6, 1]
  const Seps: seq<set<char>> := [{'-'}, {'-'}]

  /** The groups of REGEXP: three digits, an optional '-', six digits, an optional '-', one
      digit. The ten digits, or None. */
  function Groups(s: string): (r: Option<string>)
    ensures r.Some? ==> AllDigits(r.value) && |r.value| == 10
  {
    Layout(s, Lens, Seps)
  }

  predicate Format(s: string) {
    Groups(s).Some?
  }

  /** `normalize(idNumber)`: every '-' removed. */
  function Normalize(s: string): (r: string)
    ensures forall i :: 0 <= i < |r| ==> r[i] !in {'-'}
    ensures (forall i :: 0 <= i < |s| ==> s[i] !in {'-'}) ==> r == s
  {
    WithoutRemoves(s, {'-'});
    Without(s, {'-'})
  }

  /** Normalizing a well-formed number leaves exactly its ten digits. */
  lemma NormalizeGroups(s: string)
    requires Format(s)
    ensures Normalize(s) == Groups(s).value
  {
    LayoutWithout(s, Lens, Seps, {'-'});
  }

  const Multiplier: seq<int> := [10, 9, 8, 7, 6, 5, 4, 3, 2]

  /** The weighted sum of the first nine digits. */
  function Total(s: string): nat
    requires Format(s)
  {
    var ds := Digits(Groups(s).value[..9]);
    WeightedSumNonnegative(ds, Multiplier, 9);
    WeightedSum(ds, Multiplier, 9)
  }

  /** `checksum(idNumber)`: None (null) without the format; otherwise the remainder r of the
      weighted sum modulo 11 when r is 0 or 1, and else the digit 11 - r that completes the sum to
      a multiple of 11. */
  function Checksum(s: string): (r: Option<int>)
    ensures r.Some? <==> Format(s)
    ensures r.Some? ==> 0 <= r.value <= 9
    ensures r.Some? && Total(s) % 11 < 2 ==> r.value == Total(s) % 11
    ensures r.Some? && Total(s) % 11 >= 2 ==> r.value >= 1 && (Total(s) + r.value) % 11 == 0
  {
    if !Format(s) then None
    else
      var digits := Digits(Groups(s).value);
      assert digits[..9] == Digits(Groups(s).value[..9]);
      WeightedSumPrefix(digits[..9], Multiplier, digits, Multiplier, 9);
      var modulus := WeightedModulusDigit(digits[..9], Some(Multiplier), 11, true).value;
      var t := Total(s);
      assert modulus == t % 11;
      ModComplement(t, 11);
      if modulus < 2 then Some(modulus) else Some(11 - modulus)
  }

  /** `validate(idNumber)`: the format holds and the last digit is the checksum. */
  predicate Validate(s: string)
    ensures Validate(s) ==>
      Format(s) && var d := DigitValue(Groups(s).value[9]);
      && (Total(s) % 11 < 2 ==> d == Total(s) % 11)
      && (Total(s) % 11 >= 2 ==> (Total(s) + d) % 11 == 0)
  {
    Format(s) && Checksum(s) == Some(DigitValue(Groups(s).value[9]))
  }

  /** The last digit `validate` reads from the normalized number is the last digit of the
      groups. */
  lemma ValidateNormalized(s: string)
    requires Format(s)
    ensures |Normalize(s)| == 10 && IsDigit(Normalize(s)[9])
    ensures Validate(s) <==> Checksum(s) == Some(DigitValue(Normalize(s)[9]))
  {
    NormalizeGroups(s);
  }

  /** A well-formed number is valid exactly when its last digit c is the remainder of the sum (if
      that is 0 or 1) or completes the sum to a multiple of 11 (otherwise). */
  lemma ValidateMeaning(s: string)
    requires Format(s)
    ensures var c := DigitValue(Groups(s).value[9]);
      Validate(s) <==>
        (if Total(s) % 11 < 2 then c == Total(s) % 11 else (Total(s) + c) % 11 == 0)
  {
    NormalizeGroups(s);
    var c := DigitValue(Groups(s).value[9]);
    if Total(s) % 11 >= 2 && (Total(s) + c) % 11 == 0 {
      var v := Checksum(s).value;
      ModCancel(Total(s), 11, c, v);
    }
  }

  // ---------------------------------------------------------------------------------------
  // Examples from irn.test.js

  /** Ten bare digits have the layout, and are their own groups. */
  lemma GroupsUndelimited(s: string)
    requires AllDigits(s) && |s| == 10
    ensures Groups(s) == Some(s)
  {
    LayoutAllDigits(s, Lens, Seps);
  }

  /** The check of a number through its groups, digit values and weighted sum. */
  lemma ValidByDigits(s: string, g: string, ds: seq<Digit>, sum: nat)
    requires Groups(s) == Some(g) && Digits(g[..9]) == ds && WeightedSum(ds, Multiplier, 9) == sum
    ensures Validate(s) <==>
      (if sum % 11 < 2 then DigitValue(g[9]) == sum % 11 else (sum + DigitValue(g[9])) % 11 == 0)
  {
    ValidateMeaning(s);
  }

  /** The same for ten bare digits. */
  lemma BareValidByDigits(s: string, ds: seq<Digit>, sum: nat)
    requires AllDigits(s) && |s| == 10 && Digits(s[..9]) == ds && WeightedSum(ds, Multiplier, 9) == sum
    ensures Validate(s) <==>
      (if sum % 11 < 2 then DigitValue(s[9]) == sum % 11 else (sum + DigitValue(s[9])) % 11 == 0)
  {
    GroupsUndelimited(s);
    ValidByDigits(s, s, ds, sum);
  }

  const DashedSample: string := "472-171992-2"
  const DashedWrong: string := "472-171992-1"
  const DashedGroups: string := "4721719922"
  const DashedWrongGroups: string := "4721719921"
  const Sample: string := "4608968882"
  const Ones: string := "1111111111"
  const LeadingZero: string := "0939092001"
  const Wrong: string := "2130396217"
  const Zeros: string := "0000000001"

  /** A number written as the three groups joined by '-'. */
  lemma GroupsSeparated(s: string, g: string)
    requires |s| == 12 && |g| == 10 && AllDigits(g)
    requires s[0..3] == g[0..3] && s[4..10] == g[3..9] && s[11..12] == g[9..10]
    requires s[3] == '-' && s[10] == '-'
    ensures Groups(s) == Some(g)
  {
    assert AllDigits(s[11..]) && s[11..] == g[9..];
    LayoutFromLast(s, 11, Lens, Seps, 2);
    assert AllDigits(s[4..10]);
    LayoutFromSeparated(s, 4, Lens, Seps, 1, g[9..]);
    assert g[3..9] + g[9..] == g[3..];
    assert AllDigits(s[0..3]);
    LayoutFromSeparated(s, 0, Lens, Seps, 0, g[3..]);
    assert g[0..3] + g[3..] == g;
  }

  lemma GroupsOfDashed()
    ensures Groups(DashedSample) == Some(DashedGroups)
  {
    assert DashedSample[0..3] == "472" && DashedSample[4..10] == "171992" && DashedSample[11..12] == "2";
    GroupsSeparated(DashedSample, DashedGroups);
  }

  lemma GroupsOfDashedWrong()
    ensures Groups(DashedWrong) == Some(DashedWrongGroups)
  {
    assert DashedWrong[0..3] == "472" && DashedWrong[4..10] == "171992" && DashedWrong[11..12] == "1";
    GroupsSeparated(DashedWrong, DashedWrongGroups);
  }

  lemma DigitsOfDashed()
    ensures Digits(DashedGroups[..9]) == [4, 7, 2, 1, 7, 1, 9, 9, 2] && DashedGroups[9] == '2'
    ensures DashedWrongGroups[..9] == DashedGroups[..9] && DashedWrongGroups[9] == '1'
  {
  }

  lemma DigitsOfSample()
    ensures AllDigits(Sample) && |Sample| == 10 && Sample[9] == '2'
    ensures Digits(Sample[..9]) == [4, 6, 0, 8, 9, 6, 8, 8, 8]
  {
  }

  lemma DigitsOfOnes()
    ensures AllDigits(Ones) && |Ones| == 10 && Ones[9] == '1'
    ensures Digits(Ones[..9]) == [1, 1, 1, 1, 1, 1, 1, 1, 1]
  {
  }

  lemma DigitsOfLeadingZero()
    ensures AllDigits(LeadingZero) && |LeadingZero| == 10 && LeadingZero[9] == '1'
    ensures Digits(LeadingZero[..9]) == [0, 9, 3, 9, 0, 9, 2, 0, 0]
  {
  }

  lemma DigitsOfWrong()
    ensures AllDigits(Wrong) && |Wrong| == 10 && Wrong[9] == '7'
    ensures Digits(Wrong[..9]) == [2, 1, 3, 0, 3, 9, 6, 2, 1]
  {
  }

  lemma DigitsOfZeros()
    ensures AllDigits(Zeros) && |Zeros| == 10 && Zeros[9] == '1'
    ensures Digits(Zeros[..9]) == [0, 0, 0, 0, 0, 0, 0, 0, 0]
  {
  }

  lemma SumOf472171992(ds: seq<Digit>)
    requires ds == [4, 7, 2, 1, 7, 1, 9, 9, 2]
    ensures WeightedSum(ds, Multiplier, 9) == 240
  {
    assert WeightedSum([4, 7, 2, 1, 7, 1, 9, 9, 2], Multiplier, 9) == 240;
  }

  lemma SumOf460896888(ds: seq<Digit>)
    requires ds == [4, 6, 0, 8, 9, 6, 8, 8, 8]
    ensures WeightedSum(ds, Multiplier, 9) == 306
  {
    assert WeightedSum([4, 6, 0, 8, 9, 6, 8, 8, 8], Multiplier, 9) == 306;
  }

  lemma SumOf111111111(ds: seq<Digit>)
    requires ds == [1, 1, 1, 1, 1, 1, 1, 1, 1]
    ensures WeightedSum(ds, Multiplier, 9) == 54
  {
    assert WeightedSum([1, 1, 1, 1, 1, 1, 1, 1, 1], Multiplier, 9) == 54;
  }

  lemma SumOf093909200(ds: seq<Digit>)
    requires ds == [0, 9, 3, 9, 0, 9, 2, 0, 0]
    ensures WeightedSum(ds, Multiplier, 9) == 221
  {
    assert WeightedSum([0, 9, 3, 9, 0, 9, 2, 0, 0], Multiplier, 9) == 221;
  }

  lemma SumOf213039621(ds: seq<Digit>)
    requires ds == [2, 1, 3, 0, 3, 9, 6, 2, 1]
    ensures WeightedSum(ds, Multiplier, 9) == 148
  {
    assert WeightedSum([2, 1, 3, 0, 3, 9, 6, 2, 1], Multiplier, 9) == 148;
  }

  lemma SumOf000000000(ds: seq<Digit>)
    requires ds == [0, 0, 0, 0, 0, 0, 0, 0, 0]
    ensures WeightedSum(ds, Multiplier, 9) == 0
  {
    assert WeightedSum([0, 0, 0, 0, 0, 0, 0, 0, 0], Multiplier, 9) == 0;
  }

  /** '472-171992-2': 240 leaves 9, so the check digit is 2. */
  lemma DashedExample()
    ensures Validate(DashedSample)
  {
    GroupsOfDashed();
    DigitsOfDashed();
    SumOf472171992(Digits(DashedGroups[..9]));
    ValidByDigits(DashedSample, DashedGroups, Digits(DashedGroups[..9]), 240);
  }

  /** '472-171992-1' has the wrong check digit. */
  lemma DashedWrongExample()
    ensures !Validate(DashedWrong)
  {
    GroupsOfDashedWrong();
    DigitsOfDashed();
    SumOf472171992(Digits(DashedGroups[..9]));
    ValidByDigits(DashedWrong, DashedWrongGroups, Digits(DashedGroups[..9]), 240);
  }

  /** '4608968882': 306 leaves 9, so the check digit is 2. */
  lemma SampleExample()
    ensures Validate(Sample)
  {
    DigitsOfSample();
    SumOf460896888(Digits(Sample[..9]));
    BareValidByDigits(Sample, Digits(Sample[..9]), 306);
  }

  /** '1111111111': 54 leaves 10, so the check digit is 1. */
  lemma OnesExample()
    ensures Validate(Ones)
  {
    DigitsOfOnes();
    SumOf111111111(Digits(Ones[..9]));
    BareValidByDigits(Ones, Digits(Ones[..9]), 54);
  }

  /** '0939092001': 221 leaves 1, which is the check digit itself. */
  lemma LeadingZeroExample()
    ensures Validate(LeadingZero)
  {
    DigitsOfLeadingZero();
    SumOf093909200(Digits(LeadingZero[..9]));
    BareValidByDigits(LeadingZero, Digits(LeadingZero[..9]), 221);
  }

  /** '2130396217': 148 leaves 5, so the check digit would be 6. */
  lemma WrongExample()
    ensures !Validate(Wrong)
  {
    DigitsOfWrong();
    SumOf213039621(Digits(Wrong[..9]));
    BareValidByDigits(Wrong, Digits(Wrong[..9]), 148);
  }

  /** '0000000001': the sum 0 asks for the check digit 0. */
  lemma ZerosExample()
    ensures !Validate(Zeros)
  {
    DigitsOfZeros();
    SumOf000000000(Digits(Zeros[..9]));
    BareValidByDigits(Zeros, Digits(Zeros[..9]), 0);
  }

  const Letters: string := "abcd1234"

  /** 'abcd1234' does not have the format. */
  lemma LettersExample()
    ensures !Validate(Letters)
  {
    assert !IsDigit(Letters[0..3][0]);
  }
}
