/** The Brazilian individual taxpayer number (CPF, Cadastro de Pessoas Físicas): nine digits
    and two mod-11 check digits, written 'ddd.ddd.ddd-dd'; numbers of eleven equal digits are
    rejected (br/national_id.js). */
module BrNationalId {

  import opened Common

  /** REGEXP: three groups of three digits joined by '.', then '-' and the two check digits. */
  predicate Format(s: string) {
    |s| == 14 && AllDigits(s[0..3]) && s[3] == '.' && AllDigits(s[4..7]) && s[7] == '.'
    && AllDigits(s[8..11]) && s[11] == '-' && AllDigits(s[12..14])
  }

  /** The digits of a well-formed number: what `replace(/\D/g, '')` leaves. */
  lemma FormatDigits(s: string)
    requires Format(s)
    ensures KeepDigits(s) == s[0..3] + s[4..7] + s[8..11] + s[12..14]
  {
    assert s[8..] == s[8..11] + [s[11]] + s[12..14];
    assert s[4..] == s[4..7] + [s[7]] + s[8..];
    assert s == s[0..3] + [s[3]] + s[4..];
    KeepDigitsSeparated(s[8..11], s[11], s[12..14]);
    KeepDigitsSeparated(s[4..7], s[7], s[8..]);
    KeepDigitsSeparated(s[0..3], s[3], s[4..]);
    assert AllDigits(s[12..14]);
    AppendAssociative(s[0..3], s[4..7], s[8..11] + s[12..14]);
    AppendAssociative(s[0..3] + s[4..7], s[8..11], s[12..14]);
  }

  /** Weights 10 - i of the first nine digits, and 11 - i of the first ten. */
  const Weights1: seq<int> := [10, 9, 8, 7, 6, 5, 4, 3, 2]
  const Weights2: seq<int> := [11, 10, 9, 8, 7, 6, 5, 4, 3, 2]

  /** `(sum * 10) % 11` with 10 read as 0: the digit that makes sum plus the digit a multiple of
      11, or 0 when that would be 10 (a sum leaving remainder 1). */
  function CheckDigitFor(sum: nat): (c: int)
    ensures 0 <= c <= 9
    ensures (sum + c) % 11 == 0 || (sum % 11 == 1 && c == 0)
  {
    var r := (sum * 10) % 11;
    var q := (sum * 10) / 11;
    assert sum * 10 == 11 * q + r;
    ModUnique(sum + r, 11, sum - q, 0);
    if r == 10 then
      ModUnique(sum, 11, sum - q - 1, 1);
      0
    else r
  }

  lemma CheckDigitForValue(sum: nat)
    ensures CheckDigitFor(sum) == if (sum * 10) % 11 == 10 then 0 else (sum * 10) % 11
  {
  }

  /** The check digit is the only digit that completes the sum, except for remainder 1, where
      no digit completes it and 0 is taken. */
  lemma CheckDigitMeaning(sum: nat, c: int)
    requires 0 <= c <= 9
    ensures CheckDigitFor(sum) == c <==> (sum + c) % 11 == 0 || (sum % 11 == 1 && c == 0)
  {
    var e := CheckDigitFor(sum);
    if sum % 11 == 1 {
      ModUnique(sum + c, 11, sum / 11, 1 + c);
      ModUnique(sum + e, 11, sum / 11, 1 + e);
    } else if (sum + c) % 11 == 0 {
      ModCancel(sum, 11, c, e);
    }
  }

  function Sum1(ds: seq<Digit>): nat
    requires |ds| == 11
  {
    WeightedSumNonnegative(ds, Weights1, 9);
    WeightedSum(ds, Weights1, 9)
  }

  function Sum2(ds: seq<Digit>): nat
    requires |ds| == 11
  {
    WeightedSumNonnegative(ds, Weights2, 10);
    WeightedSum(ds, Weights2, 10)
  }

  /** What `checksum` decides about any string: its digits are eleven, not all equal, and end
      in the two check digits. */
  predicate HasValidCheckDigits(s: string) {
    var t := KeepDigits(s);
    |t| == 11 && !AllSame(t) && CheckDigitsHold(Digits(t))
  }

  /** Digits 10 and 11 are the check digits of the two sums. */
  predicate CheckDigitsHold(ds: seq<Digit>)
    requires |ds| == 11
  {
    CheckDigitFor(Sum1(ds)) == ds[9] && CheckDigitFor(Sum2(ds)) == ds[10]
  }

  /** `checksum(idNumber)`: the two weighted sums, each accumulated in its own loop. */
  method Checksum(idNumber: string) returns (ok: bool)
    ensures ok <==> HasValidCheckDigits(idNumber)
  {
    var t := KeepDigits(idNumber);
    if |t| != 11 {
      return false;
    }
    if AllSame(t) {
      return false;
    }
    ok := CheckDigitsMatch(Digits(t));
  }

  /** The two loops of `checksum` over the eleven digit values. */
  method CheckDigitsMatch(digits: seq<Digit>) returns (ok: bool)
    requires |digits| == 11
    ensures ok <==> CheckDigitsHold(digits)
  {
    var sum: int := 0;
    var i := 0;
    while i < 9
      invariant 0 <= i <= 9
      invariant sum == WeightedSum(digits, Weights1, i)
    {
      assert Weights1[i] == 10 - i;
      sum := sum + digits[i] as int * (10 - i);
      i := i + 1;
    }
    WeightedSumNonnegative(digits, Weights1, 9);
    CheckDigitForValue(sum);
    var firstCheck := (sum * 10) % 11;
    if firstCheck == 10 {
      firstCheck := 0;
    }
    sum := 0;
    i := 0;
    while i < 10
      invariant 0 <= i <= 10
      invariant sum == WeightedSum(digits, Weights2, i)
    {
      assert Weights2[i] == 11 - i;
      sum := sum + digits[i] as int * (11 - i);
      i := i + 1;
    }
    WeightedSumNonnegative(digits, Weights2, 10);
    CheckDigitForValue(sum);
    var secondCheck := (sum * 10) % 11;
    if secondCheck == 10 {
      secondCheck := 0;
    }
    ok := firstCheck == digits[9] && secondCheck == digits[10];
  }

  /** A weighted sum over n equal digits d is d times the sum of the weights. */
  lemma {:induction false} WeightedSumOfRepdigit(ds: seq<int>, es: seq<int>, ws: seq<int>, n: nat, d: int)
    requires n <= |ds| && n <= |es| && n <= |ws|
    requires forall i :: 0 <= i < n ==> ds[i] == d && es[i] == 1
    ensures WeightedSum(ds, ws, n) == d * WeightedSum(es, ws, n)
  {
    if n > 0 {
      WeightedSumOfRepdigit(ds, es, ws, n - 1, d);
      assert d * WeightedSum(es, ws, n) == d * WeightedSum(es, ws, n - 1) + d * ws[n - 1];
    }
  }

  /** The arithmetic alone accepts every number of eleven equal digits (the sums are 54 d and
      65 d, so both check digits are d): the rule against repeated digits is what rejects
      '111.111.111-11' and '000.000.000-00'. */
  lemma RepdigitsPassArithmetic(d: Digit)
    ensures var ds := seq(11, i => d);
      CheckDigitFor(Sum1(ds)) == d && CheckDigitFor(Sum2(ds)) == d
  {
    var ds := seq(11, i => d);
    RepdigitSums(d, ds);
    CheckDigitMeaning(54 * d, d);
    ModUnique(54 * d + d, 11, 5 * d, 0);
    CheckDigitMeaning(65 * d, d);
    ModUnique(65 * d + d, 11, 6 * d, 0);
  }

  /** Eleven digits d have the sums 54 d and 65 d. */
  lemma RepdigitSums(d: Digit, ds: seq<Digit>)
    requires ds == seq(11, i => d)
    ensures Sum1(ds) == 54 * d && Sum2(ds) == 65 * d
  {
    var es := seq(11, i => 1);
    WeightedSumOfRepdigit(ds, es, Weights1, 9, d);
    WeightedSumOfRepdigit(ds, es, Weights2, 10, d);
    assert es == [1, 1, 1, 1, 1, 1, 1, 1, 1, 1, 1];
    assert WeightedSum([1, 1, 1, 1, 1, 1, 1, 1, 1, 1, 1], Weights1, 9) == 54;
    assert WeightedSum([1, 1, 1, 1, 1, 1, 1, 1, 1, 1, 1], Weights2, 10) == 65;
  }

  /** What `parse` returns (the gender is always UNKNOWN and is not modelled). */
  datatype Cpf = Cpf(region: string, sequence: string, checkDigits: string)

  /** `parse(idNumber)`: None unless the layout holds, the digits are not all equal and both
      check digits hold; the first two groups and the check digits are returned. */
  function Parse(s: string): (r: Option<Cpf>)
    ensures r.Some? <==> Format(s) && HasValidCheckDigits(s)
    ensures r.Some? ==> r.value == Cpf(s[0..3], s[4..7], s[12..14])
  {
    if !Format(s) then None
    else if AllSame(KeepDigits(s)) && |KeepDigits(s)| == 11 then None
    else if !HasValidCheckDigits(s) then None
    else Some(Cpf(s[0..3], s[4..7], s[12..14]))
  }

  /** `validate(idNumber)`. */
  predicate Validate(s: string)
    ensures Validate(s) <==> Format(s) && HasValidCheckDigits(s)
  {
    Format(s) && Parse(s).Some?
  }

  // ---------------------------------------------------------------------------------------
  // Examples from br.test.js

  const ValidSample: string := "111.444.777-35"
  const WrongSample: string := "111.444.777-34"
  const ValidDigits: string := "11144477735"
  const WrongDigits: string := "11144477734"

  lemma FormatOfSamples()
    ensures Format(ValidSample) && Format(WrongSample)
  {
    assert AllDigits(ValidSample[0..3]) && AllDigits(ValidSample[4..7]);
    assert AllDigits(ValidSample[8..11]) && AllDigits(ValidSample[12..14]);
    assert AllDigits(WrongSample[0..3]) && AllDigits(WrongSample[4..7]);
    assert AllDigits(WrongSample[8..11]) && AllDigits(WrongSample[12..14]);
  }

  lemma GroupsOfSamples()
    ensures ValidSample[0..3] == "111" && ValidSample[4..7] == "444"
    ensures ValidSample[8..11] == "777" && ValidSample[12..14] == "35"
    ensures WrongSample[0..3] == "111" && WrongSample[4..7] == "444"
    ensures WrongSample[8..11] == "777" && WrongSample[12..14] == "34"
  {
  }

  lemma DigitsOfSamples()
    ensures Format(ValidSample) && Format(WrongSample)
    ensures ValidSample[0..3] + ValidSample[4..7] + ValidSample[8..11] + ValidSample[12..14] == ValidDigits
    ensures WrongSample[0..3] + WrongSample[4..7] + WrongSample[8..11] + WrongSample[12..14] == WrongDigits
    ensures ValidSample[0..3] == "111" && ValidSample[4..7] == "444" && ValidSample[12..14] == "35"
  {
    FormatOfSamples();
    GroupsOfSamples();
    assert "111" + "444" + "777" + "35" == ValidDigits;
    assert "111" + "444" + "777" + "34" == WrongDigits;
  }

  lemma ValuesOfDigits()
    ensures AllDigits(ValidDigits) && AllDigits(WrongDigits)
    ensures Digits(ValidDigits) == [1, 1, 1, 4, 4, 4, 7, 7, 7, 3, 5]
    ensures Digits(WrongDigits) == [1, 1, 1, 4, 4, 4, 7, 7, 7, 3, 4]
    ensures !AllSame(ValidDigits) && !AllSame(WrongDigits)
  {
    assert ValidDigits[3] != ValidDigits[0];
    assert WrongDigits[3] != WrongDigits[0];
  }

  lemma SumsOf111444777(ds: seq<Digit>)
    requires ds == [1, 1, 1, 4, 4, 4, 7, 7, 7, 3, 5] || ds == [1, 1, 1, 4, 4, 4, 7, 7, 7, 3, 4]
    ensures Sum1(ds) == 162 && Sum2(ds) == 204
  {
    if ds[10] == 5 {
      assert Sum1([1, 1, 1, 4, 4, 4, 7, 7, 7, 3, 5]) == 162;
      assert Sum2([1, 1, 1, 4, 4, 4, 7, 7, 7, 3, 5]) == 204;
    } else {
      assert Sum1([1, 1, 1, 4, 4, 4, 7, 7, 7, 3, 4]) == 162;
      assert Sum2([1, 1, 1, 4, 4, 4, 7, 7, 7, 3, 4]) == 204;
    }
  }

  lemma ChecksOf162And204()
    ensures CheckDigitFor(162) == 3 && CheckDigitFor(204) == 5
  {
  }

  /** The digits the filter leaves of the valid sample, and their values. */
  lemma FilteredValidSample()
    ensures HasValidCheckDigits(ValidSample) <==> CheckDigitsHold([1, 1, 1, 4, 4, 4, 7, 7, 7, 3, 5])
  {
    DigitsOfSamples();
    FormatDigits(ValidSample);
    ValuesOfDigits();
  }

  /** The digits the filter leaves of the wrong sample, and their values. */
  lemma FilteredWrongSample()
    ensures HasValidCheckDigits(WrongSample) <==> CheckDigitsHold([1, 1, 1, 4, 4, 4, 7, 7, 7, 3, 4])
  {
    DigitsOfSamples();
    FormatDigits(WrongSample);
    ValuesOfDigits();
  }

  /** '111.444.777-35': the sums 162 and 204 give the check digits 3 and 5. */
  lemma ValidExample()
    ensures HasValidCheckDigits(ValidSample)
  {
    FilteredValidSample();
    SumsOf111444777([1, 1, 1, 4, 4, 4, 7, 7, 7, 3, 5]);
    ChecksOf162And204();
  }

  /** '111.444.777-34': the same sums, so a final 4 is rejected. */
  lemma WrongCheckDigitExample()
    ensures !HasValidCheckDigits(WrongSample)
  {
    FilteredWrongSample();
    SumsOf111444777([1, 1, 1, 4, 4, 4, 7, 7, 7, 3, 4]);
    ChecksOf162And204();
  }

  /** The valid number parses to region '111', sequence '444' and check digits '35'. */
  lemma ParseExample()
    ensures Parse(ValidSample) == Some(Cpf("111", "444", "35"))
  {
    DigitsOfSamples();
    ValidExample();
  }
}
