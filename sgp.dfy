/** The Singapore NRIC/FIN: a prefix letter, seven digits and a check letter taken from a table
    chosen by the prefix (sgp/nric.js). */
module SgpNric {

  import opened Common

  /** REGEXP: S, T, F, G or M, seven digits and an upper-case letter. */
  predicate Format(s: string) {
    |s| == 9 && s[0] in "STFGM" && AllDigits(s[1..8]) && IsUpperLetter(s[8])
  }

  const Weights: seq<int> := [2, 7, 6, 5, 4, 3, 2]

  /** `prefixValues[prefix] || 0`. */
  function PrefixValue(prefix: char): (v: int)
    ensures 0 <= v <= 4
  {
    match prefix
    case 'S' => 0
    case 'T' => 4
    case 'F' => 0
    case 'G' => 4
    case 'M' => 3
    case _ => 0
  }

  /** `checkLetters[prefix]`: eleven letters for each prefix. */
  function CheckLetters(prefix: char): (t: string)
    requires prefix in "STFGM"
    ensures |t| == 11
  {
    match prefix
    case 'S' => "JZIHGFEDCBA"
    case 'T' => "GFEDCBAJZIH"
    case 'F' => "XWUTRQPNMLK"
    case 'G' => "RQPNMLKXWUT"
    case 'M' => "KLJNPQRTUWX"
  }

  /** Eleven different upper-case letters. */
  predicate DistinctLetters(t: string) {
    |t| == 11 && (forall i :: 0 <= i < 11 ==> IsUpperLetter(t[i]))
    && forall i, j :: 0 <= i < j < 11 ==> t[i] != t[j]
  }

  lemma STableDistinct()
    ensures DistinctLetters(CheckLetters('S'))
  {
  }

  lemma FTableDistinct()
    ensures DistinctLetters(CheckLetters('F'))
  {
  }

  lemma MTableDistinct()
    ensures DistinctLetters(CheckLetters('M'))
  {
  }

  /** The turned tables inherit distinctness from the tables they turn. */
  lemma RotatedTableDistinct(prefix: char, i: int, j: int)
    requires prefix in "TG" && 0 <= i < j < 11
    ensures CheckLetters(prefix)[i] != CheckLetters(prefix)[j]
    ensures IsUpperLetter(CheckLetters(prefix)[i]) && IsUpperLetter(CheckLetters(prefix)[j])
  {
    var base := if prefix == 'T' then 'S' else 'F';
    STableDistinct();
    FTableDistinct();
    TablesRotated(i);
    TablesRotated(j);
    var a, b := (i + 4) % 11, (j + 4) % 11;
    assert CheckLetters(prefix)[i] == CheckLetters(base)[a];
    assert CheckLetters(prefix)[j] == CheckLetters(base)[b];
    if a < b {
      assert CheckLetters(base)[a] != CheckLetters(base)[b];
    } else {
      assert CheckLetters(base)[b] != CheckLetters(base)[a];
    }
  }

  /** Each table lists eleven different letters, so a remainder has exactly one letter and a
      letter at most one remainder. */
  lemma CheckLettersDistinct(prefix: char, i: int, j: int)
    requires prefix in "STFGM" && 0 <= i < 11 && 0 <= j < 11 && i != j
    ensures CheckLetters(prefix)[i] != CheckLetters(prefix)[j]
    ensures IsUpperLetter(CheckLetters(prefix)[i])
  {
    var lo, hi := if i < j then i else j, if i < j then j else i;
    if prefix in "TG" {
      RotatedTableDistinct(prefix, lo, hi);
    } else {
      STableDistinct();
      FTableDistinct();
      MTableDistinct();
      assert CheckLetters(prefix)[lo] != CheckLetters(prefix)[hi];
    }
  }

  /** The T and G tables are the S and F tables turned by four places. */
  lemma TablesRotated(r: int)
    requires 0 <= r < 11
    ensures CheckLetters('T')[r] == CheckLetters('S')[(r + 4) % 11]
    ensures CheckLetters('G')[r] == CheckLetters('F')[(r + 4) % 11]
  {
  }

  /** `sum % 11`: the weighted digits plus the prefix offset, always an index of the table. */
  function Remainder(s: string): (r: int)
    requires Format(s)
    ensures 0 <= r < |CheckLetters(s[0])|
  {
    WeightedSumNonnegative(Digits(s[1..8]), Weights, 7);
    (WeightedSum(Digits(s[1..8]), Weights, 7) + PrefixValue(s[0])) % 11
  }

  /** What `checksum` decides. */
  predicate HasValidCheckLetter(s: string) {
    Format(s) && CheckLetters(s[0])[Remainder(s)] == s[8]
  }

  /** `checksum(idNumber)`. */
  method Checksum(idNumber: string) returns (ok: bool)
    ensures ok <==> HasValidCheckLetter(idNumber)
  {
    if !Format(idNumber) {
      return false;
    }
    var prefix := idNumber[0];
    var digits := Digits(idNumber[1..8]);
    var sum: int := 0;
    var i := 0;
    while i < 7
      invariant 0 <= i <= 7
      invariant sum == WeightedSum(digits, Weights, i)
    {
      sum := sum + digits[i] * Weights[i];
      i := i + 1;
    }
    sum := sum + PrefixValue(prefix);
    var remainder := sum % 11;
    var expectedLetter := CheckLetters(prefix)[remainder];
    return expectedLetter == idNumber[8];
  }

  /** Exactly one letter completes a prefix and seven digits. */
  lemma CheckLetterUnique(s: string, t: string)
    requires HasValidCheckLetter(s) && HasValidCheckLetter(t) && s[..8] == t[..8]
    ensures s == t
  {
    assert s[0] == s[..8][0] && t[0] == t[..8][0];
    assert s[1..8] == s[..8][1..] && t[1..8] == t[..8][1..];
    assert s == s[..8] + [s[8]] && t == t[..8] + [t[8]];
  }

  /** The citizenship of a prefix: S and T are citizens, F and G permanent residents, M
      foreigners. */
  function Citizenship(prefix: char): (c: Option<string>)
    ensures c.Some? <==> prefix in "STFGM"
    ensures c == Some("Citizen") <==> prefix in "ST"
    ensures c == Some("Permanent Resident") <==> prefix in "FG"
    ensures c == Some("Foreigner") <==> prefix == 'M'
  {
    if prefix == 'S' || prefix == 'T' then Some("Citizen")
    else if prefix == 'F' || prefix == 'G' then Some("Permanent Resident")
    else if prefix == 'M' then Some("Foreigner")
    else None
  }

  /** What `parse` returns (the gender field is left undefined there and is not modelled). */
  datatype Nric = Nric(number: string, prefix: char, digits: string, checkLetter: char,
                       citizenship: string)

  /** `parse(idNumber)`: None unless the checksum holds. */
  function Parse(s: string): (r: Option<Nric>)
    ensures r.Some? <==> HasValidCheckLetter(s)
    ensures r.Some? ==>
      && r.value.number == s && r.value.prefix == s[0] && r.value.digits == s[1..8]
      && r.value.checkLetter == s[8]
      && Some(r.value.citizenship) == Citizenship(s[0])
  {
    if !HasValidCheckLetter(s) then None
    else Some(Nric(s, s[0], s[1..8], s[8], Citizenship(s[0]).value))
  }

  /** `validate(idNumber)`. */
  predicate Validate(s: string)
    ensures Validate(s) <==> HasValidCheckLetter(s)
  {
    Format(s) && Parse(s).Some?
  }

  lemma DigitsOf1234567()
    ensures Digits("S1234567D"[1..8]) == [1, 2, 3, 4, 5, 6, 7]
    ensures Digits("F1234567N"[1..8]) == [1, 2, 3, 4, 5, 6, 7]
    ensures Digits("S1234567A"[1..8]) == [1, 2, 3, 4, 5, 6, 7]
  {
  }

  lemma SumOf1234567()
    ensures WeightedSum([1, 2, 3, 4, 5, 6, 7], Weights, 7) == 106
  {
  }

  /** sgp.test.js: 'S1234567D' and 'F1234567N' pass (sum 106, remainder 7) and 'S1234567A'
      fails. */
  lemma ChecksumExamples()
    ensures HasValidCheckLetter("S1234567D")
    ensures HasValidCheckLetter("F1234567N")
    ensures !HasValidCheckLetter("S1234567A")
  {
    DigitsOf1234567();
    SumOf1234567();
  }

  lemma DigitsOf9876543()
    ensures Digits("T9876543A"[1..8]) == [9, 8, 7, 6, 5, 4, 3]
  {
  }

  lemma SumOf9876543()
    ensures WeightedSum([9, 8, 7, 6, 5, 4, 3], Weights, 7) == 184
  {
  }

  /** sgp.test.js lists 'T9876543A' as valid; the sum is 188, remainder 1, and the T table
      gives F, so the code as written rejects it. */
  lemma RejectedTestVector()
    ensures !HasValidCheckLetter("T9876543A")
    ensures HasValidCheckLetter("T9876543F")
  {
    DigitsOf9876543();
    assert "T9876543F"[1..8] == "T9876543A"[1..8];
    SumOf9876543();
  }

  /** 'F1234567N' is a permanent resident. */
  lemma ParseExample()
    ensures Parse("F1234567N").Some?
    ensures Parse("F1234567N").value.citizenship == "Permanent Resident"
    ensures Parse("F1234567N").value.digits == "1234567"
  {
    ChecksumExamples();
  }
}
