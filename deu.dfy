/** The German tax identification number (Steuerliche Identifikationsnummer): ten digits in which
    at most one digit repeats and no digit appears three times in a row, followed by an
    ISO/IEC 7064 MOD 11,10 check digit (deu/tax_id.js). */
module DeuTaxId {

  import opened Common
  import opened NationalIdUtil

  /** The digit groups of REGEXP (2, 3, 3 and 3 digits, each pair joined by an optional space),
      or None when s does not have this layout. */
  function Groups(s: string): (r: Option<string>)
    ensures r.Some? ==> AllDigits(r.value) && |r.value| == 11
  {
    Layout(s, [2, 3, 3, 3], [{' '}, {' '}, {' '}])
  }

  predicate Format(s: string) {
    Groups(s).Some?
  }

  /** `normalize`: drops every space. */
  function Normalize(s: string): (r: string)
    ensures forall i :: 0 <= i < |r| ==> r[i] !in {' '}
    ensures (forall i :: 0 <= i < |s| ==> s[i] !in {' '}) ==> r == s
  {
    WithoutRemoves(s, {' '});
    Without(s, {' '})
  }

  /** On a well-formed number, `normalize` leaves exactly the eleven captured digits. */
  lemma NormalizeFormat(s: string)
    requires Format(s)
    ensures Normalize(s) == Groups(s).value
  {
    LayoutWithout(s, [2, 3, 3, 3], [{' '}, {' '}, {' '}], {' '});
  }

  /** Eleven bare digits have the layout. */
  lemma GroupsUndelimited(s: string)
    requires AllDigits(s) && |s| == 11
    ensures Groups(s) == Some(s)
  {
    LayoutAllDigits(s, [2, 3, 3, 3], [{' '}, {' '}, {' '}]);
  }

  // ---------------------------------------------------------------------------------------
  // The check digit

  /** `getCheckdigit(numbers)`: the MOD 11,10 check digit of the leading digits. */
  function CheckDigit(ds: seq<Digit>): (c: int)
    ensures 0 <= c <= 9 && (MnProduct(ds, 10, 11, |ds|) + c) % 10 == 1
  {
    Mod1110CheckDigit(ds);
    ModulusOverflowMod10(MnModulusDigit(ds, 10, 11))
  }

  /** What `checksum` decides: the format holds and the last digit of the normalized number is
      the check digit of the ten before it. */
  predicate HasValidCheckDigit(s: string) {
    Format(s) && var t := Groups(s).value; DigitValue(t[10]) == CheckDigit(Digits(t[..10]))
  }

  /** The check digit is the one final digit with which the MOD 11,10 fold ends in 1. */
  lemma CheckDigitMeaning(s: string)
    requires Format(s)
    ensures HasValidCheckDigit(s) <==>
      var t := Groups(s).value;
      (MnProduct(Digits(t[..10]), 10, 11, 10) + DigitValue(t[10])) % 10 == 1
  {
    var ds := Digits(Groups(s).value[..10]);
    var c := DigitValue(Groups(s).value[10]);
    if (MnProduct(ds, 10, 11, 10) + c) % 10 == 1 {
      Mod1110CheckDigitUnique(ds, c);
    }
  }

  /** `checksum(idNumber)`. */
  method Checksum(idNumber: string) returns (ok: bool)
    ensures ok <==> HasValidCheckDigit(idNumber)
  {
    if !Format(idNumber) {
      return false;
    }
    NormalizeFormat(idNumber);
    var numbers := Digits(Normalize(idNumber));
    var check := numbers[10];
    assert numbers[..10] == Digits(Groups(idNumber).value[..10]);
    var modulus := ComputeMnModulusDigit(numbers[..10], 10, 11);
    ok := check == ModulusOverflowMod10(modulus);
  }

  // ---------------------------------------------------------------------------------------
  // Repeated digits

  predicate Sorted(t: string) {
    forall i, j :: 0 <= i < j < |t| ==> t[i] <= t[j]
  }

  /** A character no larger than the head of a sorted string keeps it sorted in front. */
  lemma PrependSorted(c: char, t: string)
    requires Sorted(t) && (t == [] || c <= t[0])
    ensures Sorted([c] + t)
  {
    var r := [c] + t;
    forall i, j | 0 <= i < j < |r|
      ensures r[i] <= r[j]
    {
      assert r[j] == t[j - 1];
      if i > 0 {
        assert r[i] == t[i - 1];
      }
    }
  }

  /** x inserted into the sorted t before the first larger character. */
  function Insert(x: char, t: string): (r: string)
    requires Sorted(t)
    ensures Sorted(r) && multiset(r) == multiset(t) + multiset{x}
    ensures |r| == |t| + 1
    ensures r[0] == x || (|t| > 0 && r[0] == t[0])
  {
    if t == [] || x <= t[0] then
      PrependSorted(x, t);
      [x] + t
    else
      var rest := Insert(x, t[1..]);
      InsertBehindHead(x, t, rest);
      [t[0]] + rest
  }

  /** The recursive step of Insert: x goes behind the head t[0] when it is larger. */
  lemma InsertBehindHead(x: char, t: string, rest: string)
    requires Sorted(t) && t != [] && t[0] < x
    requires Sorted(rest) && multiset(rest) == multiset(t[1..]) + multiset{x}
    requires |rest| == |t| && (rest[0] == x || (|t| > 1 && rest[0] == t[1]))
    ensures Sorted([t[0]] + rest)
    ensures multiset([t[0]] + rest) == multiset(t) + multiset{x}
  {
    assert |t| > 1 ==> t[0] <= t[1];
    PrependSorted(t[0], rest);
    assert t == [t[0]] + t[1..];
  }

  /** `split('').sort()`: the characters of s in ascending order (every character of the
      strings sorted here is a single UTF-16 code unit, so code-unit order is `char` order). */
  function Sort(s: string): (t: string)
    ensures Sorted(t) && multiset(t) == multiset(s) && |t| == |s|
  {
    if s == [] then []
    else
      assert s == [s[0]] + s[1..];
      Insert(s[0], Sort(s[1..]))
  }

  /** True iff at most one character occurs more than once in t: what the German rule on the
      first ten digits checks (one digit may repeat, no second one). */
  predicate AtMostOneRepeated(t: string) {
    forall c, d :: multiset(t)[c] >= 2 && multiset(t)[d] >= 2 ==> c == d
  }

  /** Equal neighbours at positions j - 1 and j. */
  predicate PairAt(t: string, j: int) {
    1 <= j < |t| && t[j - 1] == t[j]
  }

  /** True iff every pair of equal neighbours in t holds the same character. */
  predicate NeighbourPairsAgree(t: string) {
    forall j, k :: 1 <= j < |t| && 1 <= k < |t| && PairAt(t, j) && PairAt(t, k) ==> t[j] == t[k]
  }

  /** Two equal neighbours make a character occur at least twice. */
  lemma NeighboursCount(t: string, j: int)
    requires 1 <= j < |t| && t[j - 1] == t[j]
    ensures multiset(t)[t[j]] >= 2
  {
    assert t == t[..j - 1] + [t[j - 1], t[j]] + t[j + 1..];
  }

  /** In a sorted string, a character that occurs twice occurs twice in a row. */
  lemma {:induction false} SortedCountNeighbours(t: string, c: char)
    requires Sorted(t) && multiset(t)[c] >= 2
    ensures exists j :: PairAt(t, j) && t[j] == c
  {
    var u := t[1..];
    assert t == [t[0]] + u;
    if t[0] == c {
      assert c in multiset(u);
      var k :| 0 <= k < |u| && u[k] == c;
      assert t[1] <= t[k + 1];
      assert PairAt(t, 1);
    } else {
      assert multiset(u)[c] == multiset(t)[c];
      SortedCountNeighbours(u, c);
      var j :| PairAt(u, j) && u[j] == c;
      assert PairAt(t, j + 1);
    }
  }

  /** For a sorted string, comparing neighbours decides whether at most one character repeats. */
  lemma SortedNeighbourPairs(t: string)
    requires Sorted(t)
    ensures NeighbourPairsAgree(t) <==> AtMostOneRepeated(t)
  {
    if NeighbourPairsAgree(t) {
      forall c, d | multiset(t)[c] >= 2 && multiset(t)[d] >= 2
        ensures c == d
      {
        SortedCountNeighbours(t, c);
        SortedCountNeighbours(t, d);
      }
    }
    if AtMostOneRepeated(t) {
      forall j, k | PairAt(t, j) && PairAt(t, k)
        ensures t[j] == t[k]
      {
        NeighboursCount(t, j);
        NeighboursCount(t, k);
      }
    }
  }

  /** `slice(0, -1)`: all but the last character (nothing of the empty string). */
  function DropLast(t: string): (r: string)
    ensures |t| > 0 ==> r == t[..|t| - 1]
    ensures |t| == 0 ==> r == []
  {
    if |t| == 0 then t else t[..|t| - 1]
  }

  /** What `checkMultipleOccurrence` decides: at most one character of the normalized number
      without its check digit occurs more than once. */
  predicate HasOneRepeatedDigit(s: string) {
    AtMostOneRepeated(DropLast(Normalize(s)))
  }

  /** The loop of `checkMultipleOccurrence` over the sorted digits: remembers the first repeated
      digit and fails at a pair of another one. */
  method NeighbourScan(normalized: string) returns (ok: bool)
    ensures ok <==> NeighbourPairsAgree(normalized)
  {
    var firstMultiple: Option<char> := None;
    var i := 1;
    while i < |normalized|
      invariant 1 <= i
      invariant firstMultiple.None? ==> forall j :: 1 <= j < i ==> !PairAt(normalized, j)
      invariant firstMultiple.Some? ==>
        forall j :: 1 <= j < i && PairAt(normalized, j) ==> normalized[j] == firstMultiple.value
      invariant firstMultiple.Some? ==>
        exists j :: 1 <= j < i && PairAt(normalized, j) && normalized[j] == firstMultiple.value
    {
      var digit := normalized[i];
      if firstMultiple.None? && digit == normalized[i - 1] {
        firstMultiple := Some(digit);
        assert PairAt(normalized, i);
      } else if digit == normalized[i - 1] && Some(digit) != firstMultiple {
        var j :| 1 <= j < i && PairAt(normalized, j) && normalized[j] == firstMultiple.value;
        assert PairAt(normalized, i);
        return false;
      }
      i := i + 1;
    }
    assert forall j :: PairAt(normalized, j) ==> 1 <= j < i;
    return true;
  }

  /** `checkMultipleOccurrence(idNumber)`: sorts the leading digits and walks the neighbours. */
  method CheckMultipleOccurrence(idNumber: string) returns (ok: bool)
    ensures ok <==> HasOneRepeatedDigit(idNumber)
  {
    var normalized := Sort(DropLast(Normalize(idNumber)));
    SortedNeighbourPairs(normalized);
    ok := NeighbourScan(normalized);
  }

  // ---------------------------------------------------------------------------------------
  // Runs of three

  /** What `checkConsecutivePosition` decides: no character of the normalized number equals
      the next two. */
  predicate NoTripleRun(s: string) {
    var t := Normalize(s);
    forall i :: 0 <= i < |t| - 2 ==> !(t[i] == t[i + 1] && t[i] == t[i + 2])
  }

  /** `checkConsecutivePosition(idNumber)`. */
  method CheckConsecutivePosition(idNumber: string) returns (ok: bool)
    ensures ok <==> NoTripleRun(idNumber)
  {
    var normalized := Normalize(idNumber);
    var i := 0;
    while i < |normalized| - 2
      invariant 0 <= i
      invariant forall j :: 0 <= j < i && j < |normalized| - 2 ==>
        !(normalized[j] == normalized[j + 1] && normalized[j] == normalized[j + 2])
    {
      if normalized[i] == normalized[i + 1] && normalized[i] == normalized[i + 2] {
        return false;
      }
      i := i + 1;
    }
    return true;
  }

  /** A run of three equal digits among the leading ten makes that digit repeat, so the two
      rules overlap: a digit that occurs three times in a row is the one repeated digit. */
  lemma TripleRunRepeats(s: string, i: int)
    requires Format(s)
    requires 0 <= i <= 7
    requires var t := Groups(s).value; t[i] == t[i + 1] && t[i] == t[i + 2]
    ensures multiset(DropLast(Normalize(s)))[Groups(s).value[i]] >= 2
  {
    NormalizeFormat(s);
    var u := DropLast(Normalize(s));
    assert u[i] == u[i + 1];
    NeighboursCount(u, i + 1);
  }

  // ---------------------------------------------------------------------------------------
  // Validation

  /** What `validate` decides. */
  predicate IsValid(s: string) {
    Format(s) && HasOneRepeatedDigit(s) && NoTripleRun(s) && HasValidCheckDigit(s)
  }

  /** `validate(idNumber)`: the format, the rule on repeated digits, the rule on runs and the
      check digit, in that order. */
  method Validate(idNumber: string) returns (ok: bool)
    ensures ok <==> IsValid(idNumber)
  {
    if !Format(idNumber) {
      return false;
    }
    var multiple := CheckMultipleOccurrence(idNumber);
    if !multiple {
      return false;
    }
    var consecutive := CheckConsecutivePosition(idNumber);
    if !consecutive {
      return false;
    }
    ok := Checksum(idNumber);
  }

  // ---------------------------------------------------------------------------------------
  // Examples from deu.test.js

  /** The check digit of eleven bare digits, through the digit values and the fold's end. */
  lemma ValidByDigits(s: string, ds: seq<Digit>, p: int)
    requires AllDigits(s) && |s| == 11
    requires Digits(s[..10]) == ds && MnProduct(ds, 10, 11, 10) == p
    ensures HasValidCheckDigit(s) <==> (p + DigitValue(s[10])) % 10 == 1
  {
    GroupsUndelimited(s);
    CheckDigitMeaning(s);
  }

  /** A fold ending where the last digit completes it to 1 makes the number valid. */
  lemma ValidByProduct(s: string, ds: seq<Digit>, p: int)
    requires AllDigits(s) && |s| == 11
    requires Digits(s[..10]) == ds && MnProduct(ds, 10, 11, 10) == p
    requires (p + DigitValue(s[10])) % 10 == 1
    ensures HasValidCheckDigit(s)
  {
    ValidByDigits(s, ds, p);
  }

  lemma NormalizeUndelimited(s: string)
    requires AllDigits(s) && |s| == 11
    ensures Format(s) && Normalize(s) == s
  {
    GroupsUndelimited(s);
    NormalizeFormat(s);
  }

  lemma ProductOf6592997048Half(ds: seq<Digit>)
    requires ds == [6, 5, 9, 2, 9, 9, 7, 0, 4, 8]
    ensures MnProduct(ds, 10, 11, 5) == 2
  {
    Mod1110Step(ds, 0, 6, 10, 1);
    Mod1110Step(ds, 1, 5, 1, 1);
    Mod1110Step(ds, 2, 9, 1, 9);
    Mod1110Step(ds, 3, 2, 9, 2);
    Mod1110Step(ds, 4, 9, 2, 2);
  }

  lemma ProductOf6592997048(ds: seq<Digit>)
    requires ds == [6, 5, 9, 2, 9, 9, 7, 0, 4, 8]
    ensures MnProduct(ds, 10, 11, 10) == 2
  {
    ProductOf6592997048Half(ds);
    Mod1110Step(ds, 5, 9, 2, 2);
    Mod1110Step(ds, 6, 7, 2, 7);
    Mod1110Step(ds, 7, 0, 7, 3);
    Mod1110Step(ds, 8, 4, 3, 3);
    Mod1110Step(ds, 9, 8, 3, 2);
  }

  /** Numbers of deu.test.js: a valid one, one with three nines in a row and one with a wrong
      check digit. */
  const ValidSample: string := "65929970489"
  const TripleRunSample: string := "65299970480"
  const WrongCheckSample: string := "26954371820"

  lemma DigitsOfValidSample()
    ensures AllDigits(ValidSample) && |ValidSample| == 11
    ensures Digits(ValidSample[..10]) == [6, 5, 9, 2, 9, 9, 7, 0, 4, 8] && ValidSample[10] == '9'
  {
  }

  /** '65929970489': the fold ends at 2, so the check digit is 9. */
  lemma ValidCheckDigitExample()
    ensures HasValidCheckDigit(ValidSample)
  {
    DigitsOfValidSample();
    ProductOf6592997048(Digits(ValidSample[..10]));
    assert DigitValue(ValidSample[10]) == 9;
    ValidByProduct(ValidSample, Digits(ValidSample[..10]), 2);
  }

  lemma DigitsOfTripleRunSample()
    ensures AllDigits(TripleRunSample) && |TripleRunSample| == 11
    ensures TripleRunSample[3] == '9' && TripleRunSample[4] == '9' && TripleRunSample[5] == '9'
  {
  }

  /** '65299970480' holds three nines in a row. */
  lemma TripleRunExample()
    ensures !NoTripleRun(TripleRunSample)
  {
    DigitsOfTripleRunSample();
    WithoutDigits(TripleRunSample, {' '});
    var t := Normalize(TripleRunSample);
    assert t[3] == t[4] && t[3] == t[5];
  }

  lemma DigitsOfWrongCheckSample()
    ensures AllDigits(WrongCheckSample) && |WrongCheckSample| == 11
    ensures Digits(WrongCheckSample[..10]) == [2, 6, 9, 5, 4, 3, 7, 1, 8, 2] && WrongCheckSample[10] == '0'
  {
  }

  /** '26954371820' breaks only the check digit: its fold ends at 4, so 7 would be needed. */
  lemma WrongCheckDigitExample()
    ensures !HasValidCheckDigit(WrongCheckSample)
  {
    DigitsOfWrongCheckSample();
    ProductOf2695437182(Digits(WrongCheckSample[..10]));
    ValidByDigits(WrongCheckSample, Digits(WrongCheckSample[..10]), 4);
  }

  lemma ProductOf2695437182Half(ds: seq<Digit>)
    requires ds == [2, 6, 9, 5, 4, 3, 7, 1, 8, 2]
    ensures MnProduct(ds, 10, 11, 5) == 6
  {
    Mod1110Step(ds, 0, 2, 10, 4);
    Mod1110Step(ds, 1, 6, 4, 9);
    Mod1110Step(ds, 2, 9, 9, 5);
    Mod1110Step(ds, 3, 5, 5, 9);
    Mod1110Step(ds, 4, 4, 9, 6);
  }

  lemma ProductOf2695437182(ds: seq<Digit>)
    requires ds == [2, 6, 9, 5, 4, 3, 7, 1, 8, 2]
    ensures MnProduct(ds, 10, 11, 10) == 4
  {
    ProductOf2695437182Half(ds);
    Mod1110Step(ds, 5, 3, 6, 7);
    Mod1110Step(ds, 6, 7, 7, 8);
    Mod1110Step(ds, 7, 1, 8, 7);
    Mod1110Step(ds, 8, 8, 7, 10);
    Mod1110Step(ds, 9, 2, 10, 4);
  }
}
