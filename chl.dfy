/** The Chilean RUT (Rol Único Tributario): up to nine body digits, optionally grouped by dots,
    and a mod-11 check character that is a digit or K (chl/rut.js). */
module ChlRut {

  import opened Common

  /** The body groups of REGEXP: one to three digits, then two groups of three, each optionally
      preceded by a '.'; the digits joined, or None. */
  function BodyDigits(body: string): (r: Option<string>)
    ensures r.Some? ==> AllDigits(r.value) && 7 <= |r.value| <= 9
  {
    var three := Layout(body, [3, 3, 3], [{'.'}, {'.'}]);
    var two := Layout(body, [2, 3, 3], [{'.'}, {'.'}]);
    var one := Layout(body, [1, 3, 3], [{'.'}, {'.'}]);
    if three.Some? then three else if two.Some? then two else one
  }

  predicate IsCheckChar(c: char) { IsDigit(c) || c == 'k' || c == 'K' }

  /** What a match of REGEXP yields: the body digits and the check character. */
  datatype RutMatch = RutMatch(rut: string, checkDigit: char)

  /** `idNumber.match(REGEXP)`: the last character is the check character, optionally preceded by
      a '-'; the rest is the body. */
  function Match(s: string): (r: Option<RutMatch>)
    ensures r.Some? ==> AllDigits(r.value.rut) && 7 <= |r.value.rut| <= 9
    ensures r.Some? ==> |s| > 0 && IsCheckChar(r.value.checkDigit) && r.value.checkDigit == s[|s| - 1]
  {
    if |s| == 0 || !IsCheckChar(s[|s| - 1]) then None
    else
      var body := if |s| >= 2 && s[|s| - 2] == '-' then s[..|s| - 2] else s[..|s| - 1];
      var digits := BodyDigits(body);
      if digits.None? then None else Some(RutMatch(digits.value, s[|s| - 1]))
  }

  /** The multiplier of the k-th digit counted from the right: 2, 3, ..., 7, then 2 again. */
  function Multiplier(k: nat): (m: int)
    ensures 2 <= m <= 7
  {
    2 + k % 6
  }

  /** The next multiplier: one more, back to 2 after 7. */
  lemma MultiplierStep(k: nat)
    ensures Multiplier(k + 1) == if Multiplier(k) + 1 > 7 then 2 else Multiplier(k) + 1
  {
    var q := k / 6;
    assert k == 6 * q + k % 6;
    if k % 6 == 5 {
      ModUnique(k + 1, 6, q + 1, 0);
    } else {
      ModUnique(k + 1, 6, q, k % 6 + 1);
    }
  }

  /** The weighted sum of the last n digits of rut, the rightmost weighted 2. */
  function SumFromRight(rut: seq<Digit>, n: nat): int
    requires n <= |rut|
  {
    if n == 0 then 0 else SumFromRight(rut, n - 1) + rut[|rut| - n] * Multiplier(n - 1)
  }

  /** The value a check character stands for: K is 10. */
  function CheckValue(c: char): (v: int)
    requires IsCheckChar(c)
    ensures 0 <= v <= 10
  {
    if IsDigit(c) then DigitValue(c) else 10
  }

  /** The expected check character of a sum: 11 minus the remainder, with 11 written '0' and 10
      written 'K'. */
  function ExpectedCheck(sum: int): (c: char)
    ensures c == 'K' || IsDigit(c)
  {
    var remainder := 11 - sum % 11;
    if remainder == 11 then '0' else if remainder == 10 then 'K' else DigitChar(remainder)
  }

  /** The expected character is the one whose value completes the sum to a multiple of 11. */
  lemma ExpectedCheckMeaning(sum: int, c: char)
    requires c == 'K' || IsDigit(c)
    ensures ExpectedCheck(sum) == c <==> (sum + CheckValue(c)) % 11 == 0
  {
    var v := CheckValue(c);
    var r := sum % 11;
    assert sum == 11 * (sum / 11) + r;
    if (sum + v) % 11 == 0 {
      if r + v < 11 {
        ModUnique(sum + v, 11, sum / 11, r + v);
      } else if r + v > 11 {
        ModUnique(sum + v, 11, sum / 11 + 1, r + v - 11);
      }
      assert r + v == 11 || r + v == 0;
      if !IsDigit(c) {
        assert r == 1;
      } else {
        assert DigitChar(v) == c;
      }
    } else if ExpectedCheck(sum) == c {
      var m := 11 - r;
      ModUnique(sum + (if m == 11 then 0 else m), 11, sum / 11 + (if m == 11 then 0 else 1), 0);
    }
  }

  /** What `validate` decides. */
  predicate IsValid(s: string) {
    Match(s).Some? &&
    var m := Match(s).value;
    ToUpper(m.checkDigit) == ExpectedCheck(SumFromRight(Digits(m.rut), |m.rut|))
  }

  /** `validate(idNumber)`. */
  method Validate(idNumber: string) returns (ok: bool)
    ensures ok <==> IsValid(idNumber)
  {
    var matched := Match(idNumber);
    if matched.None? {
      return false;
    }
    var checkDigit := ToUpper(matched.value.checkDigit);
    var expectedCheck := ExpectedCheckOf(Digits(matched.value.rut));
    ok := checkDigit == expectedCheck;
  }

  /** The loop of `validate`: from the rightmost body digit with the cycling multiplier, then
      the check character of the sum. */
  method ExpectedCheckOf(rut: seq<Digit>) returns (expectedCheck: char)
    ensures expectedCheck == ExpectedCheck(SumFromRight(rut, |rut|))
  {
    var sum: int := 0;
    var multiplier: int := 2;
    var i := |rut| - 1;
    while i >= 0
      invariant -1 <= i < |rut|
      invariant sum == SumFromRight(rut, |rut| - 1 - i)
      invariant multiplier == Multiplier(|rut| - 1 - i)
    {
      MultiplierStep(|rut| - 1 - i);
      sum := sum + rut[i] as int * multiplier;
      multiplier := multiplier + 1;
      if multiplier > 7 {
        multiplier := 2;
      }
      i := i - 1;
    }
    var remainder := 11 - sum % 11;
    if remainder == 11 {
      expectedCheck := '0';
    } else if remainder == 10 {
      expectedCheck := 'K';
    } else {
      expectedCheck := DigitChar(remainder);
    }
  }

  /** A RUT is valid exactly when its check character's value completes the weighted sum to a
      multiple of 11. */
  lemma IsValidMeaning(s: string)
    requires Match(s).Some?
    ensures var m := Match(s).value;
      IsValid(s) <==> (SumFromRight(Digits(m.rut), |m.rut|) + CheckValue(m.checkDigit)) % 11 == 0
  {
    var m := Match(s).value;
    var c := ToUpper(m.checkDigit);
    assert c == 'K' || IsDigit(c);
    assert CheckValue(c) == CheckValue(m.checkDigit);
    ExpectedCheckMeaning(SumFromRight(Digits(m.rut), |m.rut|), c);
  }

  /** The check character is read case-insensitively: 'k' and 'K' are the same. */
  lemma CaseInsensitive(body: string)
    ensures IsValid(body + "k") <==> IsValid(body + "K")
  {
    var s, t := body + "k", body + "K";
    assert s[|s| - 1] == 'k' && t[|t| - 1] == 'K';
    assert s[..|s| - 1] == body && t[..|t| - 1] == body;
    if |s| >= 2 {
      assert s[|s| - 2] == t[|t| - 2] && s[..|s| - 2] == t[..|t| - 2];
    }
    assert Match(s).Some? <==> Match(t).Some?;
    if Match(s).Some? {
      assert Match(s).value.rut == Match(t).value.rut;
      assert ToUpper('k') == 'K';
    }
  }

  // ---------------------------------------------------------------------------------------
  // Examples from chl.test.js

  /** Eight bare digits are their own body. */
  lemma BodyDigitsOfEight(body: string)
    requires AllDigits(body) && |body| == 8
    ensures BodyDigits(body) == Some(body)
  {
    LayoutAllDigits(body, [2, 3, 3], [{'.'}, {'.'}]);
  }

  /** The check of an eight-digit body with a '-' and a check character, through the body digit
      values and their sum. */
  lemma ValidByDigits(body: string, c: char, ds: seq<Digit>, sum: int)
    requires AllDigits(body) && |body| == 8 && IsCheckChar(c)
    requires Digits(body) == ds && SumFromRight(ds, 8) == sum
    ensures IsValid(body + "-" + [c]) <==> ToUpper(c) == ExpectedCheck(sum)
  {
    var s := body + "-" + [c];
    assert s[..|s| - 2] == body;
    BodyDigitsOfEight(body);
  }

  const Body1: string := "12345678"
  const Body2: string := "22220013"
  const Body3: string := "30000001"

  lemma DigitsOfBodies()
    ensures AllDigits(Body1) && AllDigits(Body2) && AllDigits(Body3)
    ensures |Body1| == 8 && |Body2| == 8 && |Body3| == 8
    ensures Digits(Body1) == [1, 2, 3, 4, 5, 6, 7, 8]
    ensures Digits(Body2) == [2, 2, 2, 2, 0, 0, 1, 3]
    ensures Digits(Body3) == [3, 0, 0, 0, 0, 0, 0, 1]
  {
  }

  lemma SumOf12345678(ds: seq<Digit>)
    requires ds == [1, 2, 3, 4, 5, 6, 7, 8]
    ensures SumFromRight(ds, 8) == 138
  {
    assert SumFromRight([1, 2, 3, 4, 5, 6, 7, 8], 8) == 138;
  }

  lemma SumOf22220013(ds: seq<Digit>)
    requires ds == [2, 2, 2, 2, 0, 0, 1, 3]
    ensures SumFromRight(ds, 8) == 45
  {
    assert SumFromRight([2, 2, 2, 2, 0, 0, 1, 3], 8) == 45;
  }

  lemma SumOf30000001(ds: seq<Digit>)
    requires ds == [3, 0, 0, 0, 0, 0, 0, 1]
    ensures SumFromRight(ds, 8) == 11
  {
    assert SumFromRight([3, 0, 0, 0, 0, 0, 0, 1], 8) == 11;
  }

  lemma FirstValid()
    ensures IsValid(Body1 + "-5")
  {
    DigitsOfBodies();
    SumOf12345678(Digits(Body1));
    ValidByDigits(Body1, '5', Digits(Body1), 138);
    assert Body1 + "-5" == Body1 + "-" + ['5'];
  }

  lemma FirstWrong()
    ensures !IsValid(Body1 + "-4")
  {
    DigitsOfBodies();
    SumOf12345678(Digits(Body1));
    ValidByDigits(Body1, '4', Digits(Body1), 138);
    assert Body1 + "-4" == Body1 + "-" + ['4'];
  }

  /** '12345678-5': the sum 138 leaves 6, so the check is 5, and '12345678-4' fails. */
  lemma FirstExample()
    ensures IsValid(Body1 + "-5") && !IsValid(Body1 + "-4")
  {
    FirstValid();
    FirstWrong();
  }

  lemma KUpper()
    ensures IsValid(Body2 + "-K")
  {
    DigitsOfBodies();
    SumOf22220013(Digits(Body2));
    ValidByDigits(Body2, 'K', Digits(Body2), 45);
    assert Body2 + "-K" == Body2 + "-" + ['K'];
  }

  lemma KLower()
    ensures IsValid(Body2 + "-k")
  {
    DigitsOfBodies();
    SumOf22220013(Digits(Body2));
    ValidByDigits(Body2, 'k', Digits(Body2), 45);
    assert Body2 + "-k" == Body2 + "-" + ['k'];
  }

  lemma KWrong()
    ensures !IsValid(Body2 + "-1")
  {
    DigitsOfBodies();
    SumOf22220013(Digits(Body2));
    ValidByDigits(Body2, '1', Digits(Body2), 45);
    assert Body2 + "-1" == Body2 + "-" + ['1'];
  }

  /** '22220013-K' and '-k': the sum 45 leaves 1, so the check is 10, written K. */
  lemma KExample()
    ensures IsValid(Body2 + "-K") && IsValid(Body2 + "-k") && !IsValid(Body2 + "-1")
  {
    KUpper();
    KLower();
    KWrong();
  }

  /** '30000001-0': the sum 11 leaves 0, so 11 minus it is 11, written 0. */
  lemma ZeroExample()
    ensures IsValid(Body3 + "-0")
  {
    DigitsOfBodies();
    SumOf30000001(Digits(Body3));
    ValidByDigits(Body3, '0', Digits(Body3), 11);
    assert Body3 + "-0" == Body3 + "-" + ['0'];
  }
}
