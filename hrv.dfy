/** The Croatian personal identification number (OIB): ten digits and an ISO 7064 MOD 11,10
    check digit (hrv/oib.js). */
module HrvOib {

  import opened Common
  import opened NationalIdUtil

  /** REGEXP: eleven digits. */
  predicate Format(s: string) {
    |s| == 11 && AllDigits(s)
  }

  /** The check digit after the fold of ds: 11 minus the final product, with 10 written 0. It
      is the one digit that brings the fold to 1 modulo 10 (the MOD 11,10 condition), and it is
      what the library's `modulusOverflowMod10(mnModulusDigit(ds, 10, 11))` computes. */
  function CheckDigit(ds: seq<Digit>): (c: int)
    requires |ds| > 0
    ensures 0 <= c <= 9 && (MnProduct(ds, 10, 11, |ds|) + c) % 10 == 1
    ensures c == ModulusOverflowMod10(MnModulusDigit(ds, 10, 11))
  {
    MnProduct1110Positive(ds, |ds|);
    Mod1110CheckDigit(ds);
    var a := MnProduct(ds, 10, 11, |ds|);
    if 11 - a == 10 then 0 else 11 - a
  }

  /** No other digit satisfies the MOD 11,10 condition. */
  lemma CheckDigitUnique(ds: seq<Digit>, c: Digit)
    requires |ds| > 0 && (MnProduct(ds, 10, 11, |ds|) + c) % 10 == 1
    ensures c == CheckDigit(ds)
  {
    Mod1110CheckDigitUnique(ds, c);
  }

  /** What `validate` decides. */
  predicate IsValid(s: string) {
    Format(s) && CheckDigit(Digits(s[..10])) == DigitValue(s[10])
  }

  /** `validate(idNumber)`: the fold starting from 10, then the check digit against the last
      digit. */
  method Validate(idNumber: string) returns (ok: bool)
    ensures ok <==> IsValid(idNumber)
  {
    if !Format(idNumber) {
      return false;
    }
    var digits := Digits(idNumber[..10]);
    var a: int := 10;
    var i := 0;
    while i < 10
      invariant 0 <= i <= 10
      invariant a == MnProduct(digits, 10, 11, i)
    {
      a := a + digits[i];
      a := a % 10;
      if a == 0 {
        a := 10;
      }
      a := a * 2;
      a := a % 11;
      i := i + 1;
    }
    var checkDigit := 11 - a;
    if checkDigit == 10 {
      checkDigit := 0;
    }
    ok := checkDigit == DigitValue(idNumber[10]);
  }

  /** A number is valid exactly when its last digit satisfies the MOD 11,10 condition. */
  lemma IsValidMeaning(s: string)
    requires Format(s)
    ensures IsValid(s) <==> (MnProduct(Digits(s[..10]), 10, 11, 10) + DigitValue(s[10])) % 10 == 1
  {
    if (MnProduct(Digits(s[..10]), 10, 11, 10) + DigitValue(s[10])) % 10 == 1 {
      CheckDigitUnique(Digits(s[..10]), DigitValue(s[10]));
    }
  }

  // ---------------------------------------------------------------------------------------
  // Examples from hrv.test.js

  lemma ProductOf1234567890Half(ds: seq<Digit>)
    requires ds == [1, 2, 3, 4, 5, 6, 7, 8, 9, 0]
    ensures MnProduct(ds, 10, 11, 5) == 1
  {
    Mod1110Step(ds, 0, 1, 10, 2);
    Mod1110Step(ds, 1, 2, 2, 8);
    Mod1110Step(ds, 2, 3, 8, 2);
    Mod1110Step(ds, 3, 4, 2, 1);
    Mod1110Step(ds, 4, 5, 1, 1);
  }

  lemma ProductOf1234567890(ds: seq<Digit>)
    requires ds == [1, 2, 3, 4, 5, 6, 7, 8, 9, 0]
    ensures MnProduct(ds, 10, 11, 10) == 8
  {
    ProductOf1234567890Half(ds);
    Mod1110Step(ds, 5, 6, 1, 3);
    Mod1110Step(ds, 6, 7, 3, 9);
    Mod1110Step(ds, 7, 8, 9, 3);
    Mod1110Step(ds, 8, 9, 3, 4);
    Mod1110Step(ds, 9, 0, 4, 8);
  }

  lemma ProductOf9876543210Half(ds: seq<Digit>)
    requires ds == [9, 8, 7, 6, 5, 4, 3, 2, 1, 0]
    ensures MnProduct(ds, 10, 11, 5) == 4
  {
    Mod1110Step(ds, 0, 9, 10, 7);
    Mod1110Step(ds, 1, 8, 7, 10);
    Mod1110Step(ds, 2, 7, 10, 3);
    Mod1110Step(ds, 3, 6, 3, 7);
    Mod1110Step(ds, 4, 5, 7, 4);
  }

  lemma ProductOf9876543210(ds: seq<Digit>)
    requires ds == [9, 8, 7, 6, 5, 4, 3, 2, 1, 0]
    ensures MnProduct(ds, 10, 11, 10) == 5
  {
    ProductOf9876543210Half(ds);
    Mod1110Step(ds, 5, 4, 4, 5);
    Mod1110Step(ds, 6, 3, 5, 5);
    Mod1110Step(ds, 7, 2, 5, 3);
    Mod1110Step(ds, 8, 1, 3, 8);
    Mod1110Step(ds, 9, 0, 8, 5);
  }

  lemma ProductOf1111111111Half(ds: seq<Digit>)
    requires ds == [1, 1, 1, 1, 1, 1, 1, 1, 1, 1]
    ensures MnProduct(ds, 10, 11, 5) == 7
  {
    Mod1110Step(ds, 0, 1, 10, 2);
    Mod1110Step(ds, 1, 1, 2, 6);
    Mod1110Step(ds, 2, 1, 6, 3);
    Mod1110Step(ds, 3, 1, 3, 8);
    Mod1110Step(ds, 4, 1, 8, 7);
  }

  lemma ProductOf1111111111(ds: seq<Digit>)
    requires ds == [1, 1, 1, 1, 1, 1, 1, 1, 1, 1]
    ensures MnProduct(ds, 10, 11, 10) == 2
  {
    ProductOf1111111111Half(ds);
    Mod1110Step(ds, 5, 1, 7, 5);
    Mod1110Step(ds, 6, 1, 5, 1);
    Mod1110Step(ds, 7, 1, 1, 4);
    Mod1110Step(ds, 8, 1, 4, 10);
    Mod1110Step(ds, 9, 1, 10, 2);
  }

  lemma ValidByDigits(s: string, ds: seq<Digit>, a: int)
    requires Format(s) && Digits(s[..10]) == ds && MnProduct(ds, 10, 11, 10) == a
    ensures IsValid(s) <==> (if 11 - a == 10 then 0 else 11 - a) == DigitValue(s[10])
  {
  }

  const Sample1: string := "12345678903"
  const Sample2: string := "98765432106"
  const Sample3: string := "11111111119"
  const Wrong3: string := "11111111111"

  lemma DigitsOfSamples()
    ensures Format(Sample1) && Format(Sample2) && Format(Sample3) && Format(Wrong3)
    ensures Digits(Sample1[..10]) == [1, 2, 3, 4, 5, 6, 7, 8, 9, 0] && Sample1[10] == '3'
    ensures Digits(Sample2[..10]) == [9, 8, 7, 6, 5, 4, 3, 2, 1, 0] && Sample2[10] == '6'
    ensures Digits(Sample3[..10]) == [1, 1, 1, 1, 1, 1, 1, 1, 1, 1] && Sample3[10] == '9'
    ensures Wrong3[..10] == Sample3[..10] && Wrong3[10] == '1'
  {
  }

  /** '12345678903': the fold ends at 8, so the check digit is 3. */
  lemma FirstExample()
    ensures IsValid(Sample1)
  {
    DigitsOfSamples();
    ProductOf1234567890(Digits(Sample1[..10]));
    ValidByDigits(Sample1, Digits(Sample1[..10]), 8);
  }

  /** '98765432106': the fold ends at 5, so the check digit is 6. */
  lemma SecondExample()
    ensures IsValid(Sample2)
  {
    DigitsOfSamples();
    ProductOf9876543210(Digits(Sample2[..10]));
    ValidByDigits(Sample2, Digits(Sample2[..10]), 5);
  }

  /** '11111111119' is valid and '11111111111' is not: the fold ends at 2, so the check digit
      is 9. */
  lemma RepeatedOnesExample()
    ensures IsValid(Sample3) && !IsValid(Wrong3)
  {
    DigitsOfSamples();
    ProductOf1111111111(Digits(Sample3[..10]));
    ValidByDigits(Sample3, Digits(Sample3[..10]), 2);
    ValidByDigits(Wrong3, Digits(Sample3[..10]), 2);
  }
}
