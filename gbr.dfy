/** The United Kingdom National Insurance number (NINO): a two-letter prefix from the allocated
    ones, six digits and a suffix letter A, B, C, D, F, M or P (gbr/national_insurance.js). */
module GbrNationalInsurance {

  import opened Common

  /** REGEXP: two upper-case letters, six digits, an upper-case letter. */
  predicate Format(s: string) {
    |s| == 9 && AllUpperLetters(s[..2]) && AllDigits(s[2..8]) && IsUpperLetter(s[8])
  }

  /** The letters no prefix may contain. */
  const ProhibitChars: set<char> := {'D', 'F', 'I', 'Q', 'U', 'V'}

  /** The prefixes that are not allocated. */
  const NotAllocated: seq<string> := ["BG", "GB", "NK", "KN", "TN", "NT", "ZZ"]

  /** `checkPrefix(prefix)`: no prohibited letter anywhere, no 'O' as the second letter, and not
      one of the unallocated prefixes. */
  function CheckPrefix(prefix: string): (ok: bool)
    ensures ok <==>
      && (forall i :: 0 <= i < |prefix| ==> prefix[i] !in ProhibitChars)
      && (|prefix| < 2 || prefix[1] != 'O')
      && prefix !in NotAllocated
  {
    if exists c :: c in ProhibitChars && c in prefix then false
    else if |prefix| >= 2 && prefix[1] == 'O' then false
    else prefix !in NotAllocated
  }

  /** The unallocated list is closed under swapping the two letters, so swapping the letters of
      an accepted prefix keeps it accepted unless that puts an 'O' second. */
  lemma PrefixSwap(p: string)
    requires |p| == 2 && CheckPrefix(p) && p[0] != 'O'
    ensures CheckPrefix([p[1], p[0]])
  {
    var q := [p[1], p[0]];
    assert forall c :: c in q ==> c in p;
    assert p == [q[1], q[0]];
  }

  /** `checkSuffix(suffix)`: one of the allowed suffix letters. */
  function CheckSuffix(suffix: string): (ok: bool)
    ensures ok <==> |suffix| == 1 && suffix[0] in "ABCDFMP"
  {
    assert |suffix| == 1 ==> suffix == [suffix[0]];
    suffix in ["A", "B", "C", "D", "F", "M", "P"]
  }

  /** `validate(idNumber)`: the format holds and both the prefix and the suffix are accepted. */
  function Validate(s: string): (ok: bool)
    ensures ok <==>
      && Format(s)
      && s[0] !in ProhibitChars && s[1] !in ProhibitChars && s[1] != 'O'
      && s[..2] !in NotAllocated && s[8] in "ABCDFMP"
  {
    if !Format(s) then false
    else
      var prefix := s[..2];
      var suffix := s[8..];
      assert suffix == [s[8]];
      assert forall c :: c in prefix <==> c == s[0] || c == s[1];
      CheckPrefix(prefix) && CheckSuffix(suffix)
  }

  // ---------------------------------------------------------------------------------------
  // Examples from gbr.test.js

  const Sample1: string := "AB" + "123456" + "A"
  const Sample2: string := "AA" + "012344" + "B"
  const ProhibitedLetter: string := "AD" + "123456" + "A"
  const SecondO: string := "BO" + "012344" + "B"
  const Unallocated: string := "GB" + "012344" + "B"
  const BadSuffix: string := "AB" + "111111" + "G"

  /** 'AB123456A' and 'AA012344B' have an allocated prefix, six digits and a known suffix. */
  lemma ValidExamples()
    ensures Validate(Sample1) && Validate(Sample2)
  {
    ValidSample1();
    ValidSample2();
  }

  lemma ValidSample1()
    ensures Validate(Sample1)
  {
    assert Format(Sample1) && Sample1[..2] == "AB" && Sample1[8] == 'A';
  }

  lemma ValidSample2()
    ensures Validate(Sample2)
  {
    assert Format(Sample2) && Sample2[..2] == "AA" && Sample2[8] == 'B';
  }

  /** 'AD…' has a prohibited letter, 'BO…' an 'O' second, 'GB' is unallocated and 'G' is not a
      suffix. */
  lemma InvalidExamples()
    ensures !Validate(ProhibitedLetter) && !Validate(SecondO)
    ensures !Validate(Unallocated) && !Validate(BadSuffix)
  {
    assert ProhibitedLetter[1] == 'D' && SecondO[1] == 'O';
    assert Unallocated[..2] == "GB" && NotAllocated[1] == "GB";
    assert BadSuffix[8] == 'G';
  }
}
