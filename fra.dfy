/** The French social security number (NIR, from INSEE): sex, year and month of birth, the
    birth department and commune (or country), a certificate number and a mod-97 control key;
    Corsica's departments 2A and 2B count as 19 and 18 in the key (fra/insee.js). */
module FraInsee {

  import opened Common

  /** The month group of REGEXP: 01-12, 20-42 or 50-99. */
  predicate MonthField(a: char, b: char)
    requires IsDigit(a) && IsDigit(b)
  {
    || (a == '0' && b != '0') || (a == '1' && b in "012") || a in "23" || (a == '4' && b in "012")
    || a in "56789"
  }

  /** The birth department group's first two characters: two digits, or 2A or 2B in either
      case. */
  predicate DepartmentPrefix(a: char, b: char) {
    (IsDigit(a) && IsDigit(b)) || (a == '2' && b in "ABab")
  }

  /** The control key group of REGEXP: two digits other than 00, 98 and 99. */
  predicate KeyField(a: char, b: char) {
    IsDigit(a) && IsDigit(b) && !(a == '0' && b == '0') && !(a == '9' && b in "89")
  }

  /** REGEXP: a sex digit of 1, 2, 3, 4, 7 or 8, two year digits, a month, the five characters
      of the birth department and commune (the sixth and seventh may be 2A or 2B), a certificate
      number other than 000, and the control key. */
  predicate Format(s: string) {
    && |s| == 15 && s[0] in "123478"
    && (forall j :: 1 <= j < 15 && j != 6 ==> IsDigit(s[j]))
    && MonthField(s[3], s[4]) && DepartmentPrefix(s[5], s[6])
    && !(s[10] == '0' && s[11] == '0' && s[12] == '0') && KeyField(s[13], s[14])
  }

  /** The digit groups of a well-formed number. */
  lemma FormatGroups(s: string)
    requires Format(s)
    ensures AllDigits(s[1..3]) && AllDigits(s[3..5]) && AllDigits(s[13..15])
  {
    assert s[1..3] == [s[1], s[2]] && s[3..5] == [s[3], s[4]] && s[13..15] == [s[13], s[14]];
  }

  /** `s.replace(a + b, rep)` with a string pattern: only the first occurrence is replaced. */
  function ReplacePair(s: string, a: char, b: char, rep: string): string {
    ReplacePairFrom(s, a, b, rep, 0)
  }

  function ReplacePairFrom(s: string, a: char, b: char, rep: string, i: nat): string
    decreases |s| - i
  {
    if i + 2 > |s| then s
    else if s[i] == a && s[i + 1] == b then s[..i] + rep + s[i + 2..]
    else ReplacePairFrom(s, a, b, rep, i + 1)
  }

  /** The search skips positions where the pattern cannot start. */
  lemma {:induction false} ReplacePairSkips(s: string, a: char, b: char, rep: string, i: nat, k: nat)
    requires i <= k
    requires forall j :: i < j <= k && j < |s| ==> s[j] != b
    ensures ReplacePairFrom(s, a, b, rep, i) == ReplacePairFrom(s, a, b, rep, k)
    decreases k - i
  {
    if i < k && i + 2 <= |s| {
      ReplacePairSkips(s, a, b, rep, i + 1, k);
    }
  }

  /** Fifteen characters that are digits except perhaps a Corsican letter after a '2' at
      position 5. */
  predicate DigitsOrCorsica(u: string) {
    && |u| == 15 && (forall j :: 0 <= j < 15 && j != 6 ==> IsDigit(u[j]))
    && (IsDigit(u[6]) || (u[5] == '2' && u[6] in "AB"))
  }

  /** In such a string the only place a 2A or 2B can be is the department. */
  lemma ReplaceCorsica(u: string, letter: char, rep: string)
    requires DigitsOrCorsica(u) && !IsDigit(letter) && |rep| == 2
    ensures ReplacePair(u, '2', letter, rep) == if u[6] == letter then u[..5] + rep + u[7..] else u
  {
    ReplacePairSkips(u, '2', letter, rep, 0, 5);
    if u[6] != letter {
      ReplacePairSkips(u, '2', letter, rep, 5, 14);
    }
  }

  /** Upper-casing keeps digits and does not make one. */
  lemma UpperDigit(c: char)
    ensures IsDigit(ToUpper(c)) <==> IsDigit(c)
    ensures IsDigit(c) ==> ToUpper(c) == c
    ensures ToUpper(c) == 'A' <==> c in "Aa"
    ensures ToUpper(c) == 'B' <==> c in "Bb"
    ensures ToUpper(c) !in "ab"
  {
  }

  /** `normalize(idNumber)`: upper case, then 2A read as 19 and 2B as 18. On a well-formed
      number these are the digits the key is computed on: Corsica's 2A and 2B replaced by 19 and
      18 and everything else unchanged. */
  function Normalized(s: string): (n: string)
    ensures Format(s) ==>
      && |n| == 15 && AllDigits(n)
      && (forall j :: 0 <= j < 15 && j != 5 && j != 6 ==> n[j] == s[j])
      && n[5..7] == (if s[6] in "Aa" then "19" else if s[6] in "Bb" then "18" else s[5..7])
  {
    var n := ReplacePair(ReplacePair(ToUpperString(s), '2', 'A', "19"), '2', 'B', "18");
    if Format(s) then NormalizedFacts(s, n); n else n
  }

  /** Putting two characters in place of positions 5 and 6 leaves the others alone. */
  lemma Splice(u: string, rep: string)
    requires |u| == 15 && |rep| == 2
    ensures var w := u[..5] + rep + u[7..];
      |w| == 15 && w[5..7] == rep && forall j :: 0 <= j < 15 && j != 5 && j != 6 ==> w[j] == u[j]
  {
  }

  /** The cases of `Normalized` on a well-formed number. */
  lemma NormalizedFacts(s: string, n: string)
    requires Format(s)
    requires n == ReplacePair(ReplacePair(ToUpperString(s), '2', 'A', "19"), '2', 'B', "18")
    ensures |n| == 15 && AllDigits(n)
    ensures (forall j :: 0 <= j < 15 && j != 5 && j != 6 ==> n[j] == s[j])
    ensures n[5..7] == (if s[6] in "Aa" then "19" else if s[6] in "Bb" then "18" else s[5..7])
  {
    var u := ToUpperString(s);
    forall j | 0 <= j < 15 ensures (IsDigit(s[j]) ==> u[j] == s[j]) && (IsDigit(u[j]) <==> IsDigit(s[j])) {
      UpperDigit(s[j]);
    }
    UpperDigit(s[6]);
    assert DigitsOrCorsica(u);
    ReplaceCorsica(u, 'A', "19");
    var v := ReplacePair(u, '2', 'A', "19");
    assert DigitsOrCorsica(v);
    ReplaceCorsica(v, 'B', "18");
    var w := ReplacePair(v, '2', 'B', "18");
    if s[6] in "Aa" {
      assert v == u[..5] + "19" + u[7..] && v[6] == '9';
      Splice(u, "19");
      assert w == v;
    } else if s[6] in "Bb" {
      assert v == u && w == u[..5] + "18" + u[7..];
      Splice(u, "18");
    } else {
      assert w == v && v == u;
    }
  }

  /** The first thirteen characters read as a number. */
  function Body(s: string): nat
    requires Format(s)
  {
    Decimal(Normalized(s)[..13])
  }

  /** `checksum(idNumber)`: None (null) unless the format holds, else 97 minus the body modulo
      97: the one key from 1 to 97 that makes the body plus the key a multiple of 97. */
  function Checksum(s: string): (r: Option<int>)
    ensures r.Some? <==> Format(s)
    ensures r.Some? ==> 1 <= r.value <= 97 && (Body(s) + r.value) % 97 == 0
  {
    if !Format(s) then None
    else
      ModComplement(Body(s), 97);
      Some(97 - Body(s) % 97)
  }

  /** No other key from 1 to 97 completes the body to a multiple of 97. */
  lemma ChecksumUnique(s: string, key: int)
    requires Format(s) && 1 <= key <= 97 && (Body(s) + key) % 97 == 0
    ensures Checksum(s) == Some(key)
  {
    KeyUnique(Body(s), key);
  }

  lemma KeyUnique(b: nat, key: int)
    requires 1 <= key <= 97 && (b + key) % 97 == 0
    ensures key == 97 - b % 97
  {
    var q, r := b / 97, b % 97;
    assert b + key == 97 * q + (r + key);
    if r + key < 97 {
      ModUnique(b + key, 97, q, r + key);
    } else if r + key > 97 {
      ModUnique(b + key, 97, q + 1, r + key - 97);
    }
  }

  /** What `validateBirthDepartment` returns. */
  datatype BirthDepartment = BirthDepartment(department: string, city: string, country: string)

  /** Corsica's two departments, 2A and 2B, in either case. */
  predicate IsCorsica(d: string)
    requires |d| >= 2
  {
    d[0] == '2' && d[1] in "ABab"
  }

  /** The upper-cased department code is the code itself when it is two digits, and 2A or 2B
      exactly for Corsica. */
  lemma DepartmentCodeFacts(d: string)
    requires |d| == 5
    ensures var u := ToUpperString(d[..2]);
      && (AllDigits(u) <==> AllDigits(d[..2])) && (AllDigits(d[..2]) ==> u == d[..2])
      && (u == "2A" || u == "2B" <==> IsCorsica(d))
  {
    var u := ToUpperString(d[..2]);
    UpperDigit(d[0]);
    UpperDigit(d[1]);
    assert u == [ToUpper(d[0]), ToUpper(d[1])] && d[..2] == [d[0], d[1]];
  }

  /** `validateBirthDepartment(birthDepartment)` on the regexp's five-character group: the
      departments 01 to 95 and Corsica have a two-character department and a three-character
      commune, 97 and 98 (overseas) a three-character department and a two-character commune,
      99 (born abroad) only a country; anything else (00, 96) is rejected. */
  function ValidateBirthDepartment(d: string): (r: Option<BirthDepartment>)
    requires |d| == 5
    ensures r.None? <==>
      !IsCorsica(d) && (!AllDigits(d[..2]) || Decimal(d[..2]) == 0 || Decimal(d[..2]) == 96)
    ensures r.Some? && IsCorsica(d) ==> r.value == BirthDepartment(d[..2], d[2..], "")
    ensures r.Some? && AllDigits(d[..2]) ==> var n := Decimal(d[..2]);
      && (1 <= n <= 95 ==> r.value == BirthDepartment(d[..2], d[2..], ""))
      && (97 <= n <= 98 ==> r.value == BirthDepartment(d[..3], d[3..], ""))
      && (n == 99 ==> r.value == BirthDepartment("", "", d[2..]))
  {
    var departmentCode := ToUpperString(d[..2]);
    DepartmentCodeFacts(d);
    var numeric: Option<nat> := if AllDigits(departmentCode) then Some(Decimal(departmentCode)) else None;
    if (numeric.Some? && 1 <= numeric.value <= 95) || departmentCode == "2A" || departmentCode == "2B" then
      Some(BirthDepartment(d[..2], d[2..], ""))
    else if numeric.Some? && 97 <= numeric.value <= 98 then
      Some(BirthDepartment(d[..3], d[3..], ""))
    else if departmentCode == "99" then
      Some(BirthDepartment("", "", d[2..]))
    else
      assert numeric.Some? ==> numeric.value <= 99;
      assert numeric.Some? && numeric.value == 99 ==> departmentCode == "99" by {
        if numeric.Some? && numeric.value == 99 {
          DecimalInjective2(departmentCode, "99");
        }
      }
      None
  }

  /** What `parse` returns. */
  datatype InseeNumber = InseeNumber(gender: Gender, yy: string, mm: string,
                                     birthDepartment: BirthDepartment, checksum: string)

  /** `String(key) !== control_key` as written: the key's decimal string without leading zeros
      against the two-character control key. */
  predicate KeyMatchesAsWritten(key: nat, controlKey: string)
    ensures KeyMatchesAsWritten(key, controlKey) ==> AllDigits(controlKey) && Decimal(controlKey) == key
    ensures key < 10 && |controlKey| == 2 ==> !KeyMatchesAsWritten(key, controlKey)
  {
    NatString(key) == controlKey
  }

  /** The corrected comparison: the control key's value is the key. */
  predicate KeyMatches(key: nat, controlKey: string)
    requires AllDigits(controlKey)
  {
    Decimal(controlKey) == key
  }

  /** The comparison as written never accepts a key below 10: its string has one character
      while the control key has two. */
  lemma SmallKeysRejectedAsWritten(key: nat, controlKey: string)
    requires key < 10 && |controlKey| == 2
    ensures !KeyMatchesAsWritten(key, controlKey)
  {
  }

  /** The corrected comparison accepts exactly the control key that spells the key, whatever
      its size. */
  lemma KeyMatchesExactly(key: nat, controlKey: string)
    requires 1 <= key <= 97 && |controlKey| == 2 && AllDigits(controlKey)
    ensures KeyMatches(key, controlKey) <==> controlKey == PadStart2(NatString(key))
  {
    var p := PadStart2(NatString(key));
    if key < 10 {
      assert p == "0" + NatString(key);
      DecimalLeadingZero(NatString(key));
    }
    assert AllDigits(p) && Decimal(p) == key;
    if KeyMatches(key, controlKey) {
      DecimalInjective2(controlKey, p);
    }
  }

  /** Two two-digit strings with the same value are equal. */
  lemma DecimalInjective2(a: string, b: string)
    requires |a| == 2 && |b| == 2 && AllDigits(a) && AllDigits(b) && Decimal(a) == Decimal(b)
    ensures a == b
  {
    assert DecimalPrefix(a, 1) == DigitValue(a[0]) && DecimalPrefix(b, 1) == DigitValue(b[0]);
    assert Decimal(a) == 10 * DigitValue(a[0]) + DigitValue(a[1]);
    assert Decimal(b) == 10 * DigitValue(b[0]) + DigitValue(b[1]);
    assert DigitValue(a[0]) == DigitValue(b[0]);
  }

  /** The upper-casing `parse` applies changes nothing the format depends on, and no digit. */
  lemma FormatUpper(s: string)
    ensures Format(ToUpperString(s)) <==> Format(s)
    ensures Format(s) ==> forall j :: 0 <= j < 15 && j != 6 ==> ToUpperString(s)[j] == s[j]
    ensures Format(s) ==> var u := ToUpperString(s);
      u[0] == s[0] && u[1..3] == s[1..3] && u[3..5] == s[3..5] && u[13..15] == s[13..15]
  {
    var u := ToUpperString(s);
    forall j | 0 <= j < |s| ensures (IsDigit(s[j]) ==> u[j] == s[j]) && (IsDigit(u[j]) <==> IsDigit(s[j])) {
      UpperDigit(s[j]);
    }
    if |s| == 15 {
      UpperDigit(s[0]);
      UpperDigit(s[6]);
    }
    if Format(s) {
      assert u[1..3] == [u[1], u[2]] && s[1..3] == [s[1], s[2]];
      assert u[3..5] == [u[3], u[4]] && s[3..5] == [s[3], s[4]];
      assert u[13..15] == [u[13], u[14]] && s[13..15] == [s[13], s[14]];
    }
  }

  /** `parse(idNumber)` with the comparison as written: None unless the upper-cased number has
      the format, its department is known and `String(key)` is the control key. */
  function ParseAsWritten(s: string): (r: Option<InseeNumber>)
    ensures r.Some? ==> Format(s) && KeyMatchesAsWritten(Checksum(s).value, s[13..15])
  {
    var u := ToUpperString(s);
    FormatUpper(s);
    if !Format(u) then None
    else
      var department := ValidateBirthDepartment(u[5..10]);
      var checksum := Checksum(s);
      if department.None? || checksum.None? || !KeyMatchesAsWritten(checksum.value, u[13..15]) then None
      else
        Some(InseeNumber(if u[0] == '1' then Male else Female, u[1..3], u[3..5], department.value, u[13..15]))
  }

  /** `parse(idNumber)` with the corrected comparison: None unless the format holds, the
      department is known and the control key is the key; sex digit 1 is a man. */
  function Parse(s: string): (r: Option<InseeNumber>)
    ensures r.Some? <==>
      && Format(s) && ValidateBirthDepartment(ToUpperString(s)[5..10]).Some?
      && (FormatGroups(s); Decimal(s[13..15]) == Checksum(s).value)
    ensures r.Some? ==>
      && (r.value.gender == Male <==> s[0] == '1')
      && r.value.yy == s[1..3] && r.value.mm == s[3..5] && r.value.checksum == s[13..15]
      && r.value.birthDepartment == ValidateBirthDepartment(ToUpperString(s)[5..10]).value
  {
    var u := ToUpperString(s);
    FormatUpper(s);
    if !Format(u) then None
    else
      FormatGroups(s);
      var department := ValidateBirthDepartment(u[5..10]);
      var checksum := Checksum(s);
      if department.None? || checksum.None? || !KeyMatches(checksum.value, u[13..15]) then None
      else
        Some(InseeNumber(if u[0] == '1' then Male else Female, u[1..3], u[3..5], department.value, u[13..15]))
  }

  /** `validate(idNumber)`. */
  predicate Validate(s: string)
    ensures Validate(s) <==>
      && Format(s) && ValidateBirthDepartment(ToUpperString(s)[5..10]).Some?
      && (FormatGroups(s); Decimal(s[13..15]) == Checksum(s).value)
  {
    Format(s) && Parse(s).Some?
  }

  // ---------------------------------------------------------------------------------------
  // Examples from fra.test.js

  /** The body of a well-formed number outside Corsica is its first thirteen characters. */
  lemma BodyOutsideCorsica(s: string)
    requires Format(s) && IsDigit(s[6])
    ensures Body(s) == Decimal(s[..13])
  {
    assert Normalized(s)[..13] == s[..13];
  }

  /** The key of a number through its body. */
  lemma ChecksumOfBody(s: string, b: nat)
    requires Format(s) && Body(s) == b
    ensures Checksum(s) == Some(97 - b % 97)
  {
  }

  const Sample: string := "2" + "55" + "08" + "14168" + "025" + "38"

  lemma FormatOfSample()
    ensures Format(Sample) && IsDigit(Sample[6]) && Sample[..13] == "2550814168025"
  {
  }

  lemma DecimalOf2550814168025(t: string)
    requires t == "2550814168025"
    ensures Decimal(t) == 2550814168025
  {
    assert DecimalPrefix(t, 1) == 2;
    assert DecimalPrefix(t, 2) == 25;
    assert DecimalPrefix(t, 3) == 255;
    assert DecimalPrefix(t, 4) == 2550;
    assert DecimalPrefix(t, 5) == 25508;
    assert DecimalPrefix(t, 6) == 255081;
    assert DecimalPrefix(t, 7) == 2550814;
    assert DecimalPrefix(t, 8) == 25508141;
    assert DecimalPrefix(t, 9) == 255081416;
    assert DecimalPrefix(t, 10) == 2550814168;
    assert DecimalPrefix(t, 11) == 25508141680;
    assert DecimalPrefix(t, 12) == 255081416802;
    assert DecimalPrefix(t, 13) == 2550814168025;
  }

  lemma KeyOf2550814168025()
    ensures 97 - 2550814168025 % 97 == 38
  {
  }

  /** '255081416802538': the body 2550814168025 leaves 59 modulo 97, so the key is 38. */
  lemma ChecksumExample()
    ensures Format(Sample) && Checksum(Sample) == Some(38)
  {
    FormatOfSample();
    BodyOutsideCorsica(Sample);
    DecimalOf2550814168025(Sample[..13]);
    ChecksumOfBody(Sample, 2550814168025);
    KeyOf2550814168025();
  }

  const CorsicanSample: string := "2" + "55" + "08" + "2A168" + "025" + "97"

  lemma FormatOfCorsicanSample()
    ensures Format(CorsicanSample) && CorsicanSample[..5] == "25508" && CorsicanSample[6] == 'A'
    ensures CorsicanSample[7..13] == "168025"
  {
  }

  /** With 2A read as 19 the body is 2550819168025. */
  const CorsicanBody: string := "2550819168025"

  lemma BodyOfCorsicanSample()
    ensures Format(CorsicanSample) && |Normalized(CorsicanSample)| == 15
    ensures AllDigits(Normalized(CorsicanSample)) && Normalized(CorsicanSample)[..13] == CorsicanBody
  {
    FormatOfCorsicanSample();
    var n := Normalized(CorsicanSample);
    assert n[5] == n[5..7][0] && n[6] == n[5..7][1];
    assert n[..13] == CorsicanBody;
  }

  lemma DecimalOf2550819168025(t: string)
    requires t == "2550819168025"
    ensures Decimal(t) == 2550819168025
  {
    assert DecimalPrefix(t, 1) == 2;
    assert DecimalPrefix(t, 2) == 25;
    assert DecimalPrefix(t, 3) == 255;
    assert DecimalPrefix(t, 4) == 2550;
    assert DecimalPrefix(t, 5) == 25508;
    assert DecimalPrefix(t, 6) == 255081;
    assert DecimalPrefix(t, 7) == 2550819;
    assert DecimalPrefix(t, 8) == 25508191;
    assert DecimalPrefix(t, 9) == 255081916;
    assert DecimalPrefix(t, 10) == 2550819168;
    assert DecimalPrefix(t, 11) == 25508191680;
    assert DecimalPrefix(t, 12) == 255081916802;
    assert DecimalPrefix(t, 13) == 2550819168025;
  }

  lemma KeyOf2550819168025()
    ensures 97 - 2550819168025 % 97 == 97
  {
  }

  /** '255082A16802597': 2550819168025 is a multiple of 97, so the key is 97. */
  lemma CorsicanChecksumExample()
    ensures Format(CorsicanSample) && Checksum(CorsicanSample) == Some(97)
  {
    BodyOfCorsicanSample();
    DecimalOf2550819168025(CorsicanBody);
    ChecksumOfBody(CorsicanSample, 2550819168025);
    KeyOf2550819168025();
  }

  lemma FieldsOfCorsicanSample()
    ensures ToUpperString(CorsicanSample)[5..10] == "2A168"
    ensures CorsicanSample[0] == '2' && CorsicanSample[1..3] == "55" && CorsicanSample[3..5] == "08"
    ensures CorsicanSample[13..15] == "97" && Decimal("97") == 97
  {
    assert CorsicanSample[13..15] == "97";
    var u := ToUpperString(CorsicanSample);
    assert u[5..10] == "2A168";
    assert DecimalPrefix("97", 2) == 97;
  }

  /** A number parses when its format, its department d and its control key are right. */
  lemma ParseAccepts(s: string, d: string, key: int)
    requires Format(s) && Checksum(s) == Some(key) && ToUpperString(s)[5..10] == d
    requires IsCorsica(d) || (AllDigits(d[..2]) && 1 <= Decimal(d[..2]) <= 95)
    requires AllDigits(s[13..15]) && Decimal(s[13..15]) == key
    ensures Parse(s).Some? && (Parse(s).value.gender == Male <==> s[0] == '1')
    ensures Parse(s).value.yy == s[1..3] && Parse(s).value.mm == s[3..5]
    ensures Parse(s).value.checksum == s[13..15]
  {
    FormatUpper(s);
  }

  /** '255082A16802597' parses to a woman born in August '55, with control key 97. */
  lemma ParseExample()
    ensures Parse(CorsicanSample).Some?
    ensures Parse(CorsicanSample).value.gender == Female
    ensures Parse(CorsicanSample).value.yy == "55" && Parse(CorsicanSample).value.mm == "08"
    ensures Parse(CorsicanSample).value.checksum == "97"
  {
    CorsicanChecksumExample();
    FieldsOfCorsicanSample();
    ParseAccepts(CorsicanSample, "2A168", 97);
  }

  /** fra.test.js's invalid '255082E16802597': 'E' is no Corsican department. */
  const UnknownDepartmentSample: string := "2" + "55" + "08" + "2E168" + "025" + "97"

  lemma InvalidExample()
    ensures !Validate(UnknownDepartmentSample)
  {
    assert UnknownDepartmentSample[6] == 'E';
  }

  /** A number whose key is below 10: the body 2550814168054 leaves 88, so the key is 9 and the
      control key 09. */
  const SmallKeySample: string := "2" + "55" + "08" + "14168" + "054" + "09"

  lemma FormatOfSmallKeySample()
    ensures Format(SmallKeySample) && IsDigit(SmallKeySample[6])
    ensures SmallKeySample[..13] == "2550814168054" && SmallKeySample[13..15] == "09"
  {
  }

  lemma DecimalOf2550814168054(t: string)
    requires t == "2550814168054"
    ensures Decimal(t) == 2550814168054
  {
    assert DecimalPrefix(t, 1) == 2;
    assert DecimalPrefix(t, 2) == 25;
    assert DecimalPrefix(t, 3) == 255;
    assert DecimalPrefix(t, 4) == 2550;
    assert DecimalPrefix(t, 5) == 25508;
    assert DecimalPrefix(t, 6) == 255081;
    assert DecimalPrefix(t, 7) == 2550814;
    assert DecimalPrefix(t, 8) == 25508141;
    assert DecimalPrefix(t, 9) == 255081416;
    assert DecimalPrefix(t, 10) == 2550814168;
    assert DecimalPrefix(t, 11) == 25508141680;
    assert DecimalPrefix(t, 12) == 255081416805;
    assert DecimalPrefix(t, 13) == 2550814168054;
  }

  lemma KeyOf2550814168054()
    ensures 97 - 2550814168054 % 97 == 9
  {
  }

  lemma SmallKeyChecksum()
    ensures Format(SmallKeySample) && Checksum(SmallKeySample) == Some(9)
  {
    FormatOfSmallKeySample();
    BodyOutsideCorsica(SmallKeySample);
    DecimalOf2550814168054(SmallKeySample[..13]);
    ChecksumOfBody(SmallKeySample, 2550814168054);
    KeyOf2550814168054();
  }

  /** As written, '255081416805409' is rejected: String(9) is '9', not '09'. */
  lemma SmallKeyRejectedAsWritten()
    ensures ParseAsWritten(SmallKeySample).None?
  {
    SmallKeyChecksum();
    FormatOfSmallKeySample();
    SmallKeysRejectedAsWritten(9, SmallKeySample[13..15]);
  }

  lemma FieldsOfSmallKeySample()
    ensures ToUpperString(SmallKeySample)[5..10] == "14168" && Decimal("14") == 14
    ensures Decimal("09") == 9
  {
    var u := ToUpperString(SmallKeySample);
    assert u[5..10] == "14168";
    assert DecimalPrefix("14", 2) == 14 && DecimalPrefix("09", 2) == 9;
  }

  /** With the corrected comparison it parses, in department 14. */
  lemma SmallKeyAccepted()
    ensures Parse(SmallKeySample).Some?
  {
    SmallKeyChecksum();
    FormatOfSmallKeySample();
    FieldsOfSmallKeySample();
    assert "14168"[..2] == "14";
    ParseAccepts(SmallKeySample, "14168", 9);
  }
}
