/** The Italian fiscal code (codice fiscale): three surname and three first-name consonants,
    the birth year, a month letter, the birth day (plus 40 for women), the area code and a
    check letter; any digit of the date and area may be replaced by a letter ("omocodia")
    (ita/fiscal_code.js). */
module ItaFiscalCode {

  import opened Common
  import Calendar

  predicate IsAlphanumeric(c: char) { IsDigit(c) || IsUpperLetter(c) }

  predicate AllAlphanumeric(s: string) { forall i :: 0 <= i < |s| ==> IsAlphanumeric(s[i]) }

  /** The month letters of MONTH_MAP, in month order. */
  const MonthLetters: string := "ABCDEHLMPRST"

  /** REGEXP: six letters, two year characters, a month letter, two day characters, a letter and
      three area characters, and the check letter; digits or letters where the digits of the
      date and area go. */
  predicate Format(s: string) {
    && |s| == 16 && AllUpperLetters(s[..6]) && AllAlphanumeric(s[6..8]) && s[8] in MonthLetters
    && AllAlphanumeric(s[9..11]) && IsUpperLetter(s[11]) && AllAlphanumeric(s[12..15])
    && IsUpperLetter(s[15])
  }

  /** The position of an alphanumeric character: its value for a digit, counted from 'A' for a
      letter. */
  function CharIndex(c: char): (k: nat)
    requires IsAlphanumeric(c)
    ensures IsDigit(c) ==> k < 10
    ensures k < 26
  {
    if IsDigit(c) then DigitValue(c) else c as int - 'A' as int
  }

  /** MAGIC_ODD_CHAR_MAP, for the digits and for the letters. */
  const OddByDigit: seq<int> := [1, 0, 5, 7, 9, 13, 15, 17, 19, 21]
  const OddByLetter: seq<int> :=
    [1, 0, 5, 7, 9, 13, 15, 17, 19, 21, 2, 4, 18, 20, 11, 3, 6, 8, 12, 14, 16, 10, 22, 25, 24, 23]

  /** MAGIC_EVEN_CHAR_MAP, for the digits and for the letters. */
  const EvenByDigit: seq<int> := [0, 1, 2, 3, 4, 5, 6, 7, 8, 9]
  const EvenByLetter: seq<int> :=
    [0, 1, 2, 3, 4, 5, 6, 7, 8, 9, 10, 11, 12, 13, 14, 15, 16, 17, 18, 19, 20, 21, 22, 23, 24, 25]

  function OddValue(c: char): (v: int)
    requires IsAlphanumeric(c)
  {
    if IsDigit(c) then OddByDigit[CharIndex(c)] else OddByLetter[CharIndex(c)]
  }

  function EvenValue(c: char): (v: int)
    requires IsAlphanumeric(c)
  {
    if IsDigit(c) then EvenByDigit[CharIndex(c)] else EvenByLetter[CharIndex(c)]
  }

  /** The value a character adds at 0-based position i: odd 1-based positions use the odd
      table. */
  function PositionValue(c: char, i: nat): (v: int)
    requires IsAlphanumeric(c)
  {
    if (i + 1) % 2 == 1 then OddValue(c) else EvenValue(c)
  }

  /** The even table is the position itself, and both tables map a digit like the letter at the
      same position ('0' like 'A'); every value is below 26. */
  lemma TableShapes(c: char)
    requires IsAlphanumeric(c)
    ensures EvenValue(c) == CharIndex(c)
    ensures IsDigit(c) ==> OddValue(c) == OddByLetter[CharIndex(c)]
    ensures 0 <= OddValue(c) < 26 && 0 <= EvenValue(c) < 26
  {
    DigitTables();
    LetterTables();
  }

  lemma DigitTables()
    ensures forall j :: 0 <= j < 10 ==> EvenByDigit[j] == j && OddByDigit[j] == OddByLetter[j]
  {
  }

  lemma LetterTables()
    ensures forall j :: 0 <= j < 26 ==> EvenByLetter[j] == j && 0 <= OddByLetter[j] < 26
  {
  }

  /** The inverse of the odd table on letters. */
  const OddLetterInverse: seq<int> :=
    [1, 0, 10, 15, 11, 2, 16, 3, 17, 4, 21, 14, 18, 5, 19, 6, 20, 7, 12, 8, 13, 9, 22, 25, 24, 23]

  /** Two characters of the same kind (two digits or two letters) have different values at any
      position. */
  lemma PositionValueInjective(c: char, d: char, i: nat)
    requires IsAlphanumeric(c) && IsAlphanumeric(d) && c != d
    requires IsDigit(c) <==> IsDigit(d)
    ensures PositionValue(c, i) != PositionValue(d, i)
  {
    TableShapes(c);
    TableShapes(d);
    var j, k := CharIndex(c), CharIndex(d);
    assert j != k;
    if (i + 1) % 2 == 1 {
      OddLetterInverseOf(j);
      OddLetterInverseOf(k);
    }
  }

  /** The inverse table undoes the odd table on letters. */
  lemma OddLetterInverseOf(j: nat)
    requires j < 26
    ensures 0 <= OddByLetter[j] < 26 && OddLetterInverse[OddByLetter[j]] == j
  {
    assert forall j :: 0 <= j < 26 ==> 0 <= OddByLetter[j] < 26 && OddLetterInverse[OddByLetter[j]] == j;
  }

  /** The sum of the position values of the first n characters. */
  function Total(s: string, n: nat): int
    requires n <= |s| && AllAlphanumeric(s[..n])
  {
    if n == 0 then 0
    else
      assert s[..n - 1] == s[..n][..n - 1];
      Total(s, n - 1) + PositionValue(s[n - 1], n - 1)
  }

  /** The first fifteen characters of a well-formed code are digits or capital letters. */
  lemma FormatAlphanumeric(s: string)
    requires Format(s)
    ensures AllAlphanumeric(s[..15])
  {
    forall i | 0 <= i < 15 ensures IsAlphanumeric(s[..15][i]) {
      if i < 6 { assert s[..15][i] == s[..6][i]; }
      else if i < 8 { assert s[..15][i] == s[6..8][i - 6]; }
      else if i == 8 { }
      else if i < 11 { assert s[..15][i] == s[9..11][i - 9]; }
      else if i == 11 { }
      else { assert s[..15][i] == s[12..15][i - 12]; }
    }
  }

  /** The check letter of a well-formed code: 'A' plus the total of the first fifteen characters
      modulo 26. */
  function CheckLetter(s: string): (c: char)
    requires Format(s)
    ensures IsUpperLetter(c)
  {
    FormatAlphanumeric(s);
    (65 + Total(s, 15) % 26) as char
  }

  /** `checksum(idNumber)`: None (null) unless the format holds, else the check letter. */
  method Checksum(idNumber: string) returns (r: Option<char>)
    ensures r.Some? <==> Format(idNumber)
    ensures r.Some? ==> r.value == CheckLetter(idNumber)
  {
    if !Format(idNumber) {
      return None;
    }
    var odd, even := SumPositions(idNumber);
    var modulus := (odd + even) % 26;
    CheckLetterOfTotal(idNumber, odd + even);
    return Some((65 + modulus) as char);
  }

  /** The check letter through the total. */
  lemma CheckLetterOfTotal(s: string, total: int)
    requires Format(s) && AllAlphanumeric(s[..15]) && Total(s, 15) == total
    ensures CheckLetter(s) == (65 + total % 26) as char
  {
  }

  /** The loop of `checksum`: the odd and even positions of the first fifteen characters summed
      in two accumulators, which together make the total. */
  method SumPositions(idNumber: string) returns (odd: int, even: int)
    requires Format(idNumber)
    ensures AllAlphanumeric(idNumber[..15]) && odd + even == Total(idNumber, 15)
  {
    FormatAlphanumeric(idNumber);
    var alphanum := idNumber[..15];
    odd, even := 0, 0;
    var i := 0;
    while i < |alphanum|
      invariant 0 <= i <= 15 && AllAlphanumeric(alphanum)
      invariant odd + even == Total(idNumber, i)
    {
      assert alphanum[..i + 1] == idNumber[..i + 1] && AllAlphanumeric(idNumber[..i + 1]);
      var ch := alphanum[i];
      assert Total(idNumber, i + 1) == Total(idNumber, i) + PositionValue(ch, i);
      if (i + 1) % 2 == 1 {
        odd := odd + OddValue(ch);
      } else {
        even := even + EvenValue(ch);
      }
      i := i + 1;
    }
  }

  /** Changing one character of the first fifteen for another of the same kind changes the
      totals by the difference of two distinct table values. */
  lemma {:induction false} TotalDiffers(s: string, t: string, i: nat, n: nat)
    requires i < n <= |s| == |t| && AllAlphanumeric(s[..n]) && AllAlphanumeric(t[..n])
    requires forall j :: 0 <= j < n && j != i ==> s[j] == t[j]
    requires IsAlphanumeric(s[i]) && IsAlphanumeric(t[i])
    ensures Total(s, n) - Total(t, n) == PositionValue(s[i], i) - PositionValue(t[i], i)
  {
    if n == i + 1 {
      TotalSame(s, t, i);
    } else {
      assert s[n - 1] == t[n - 1];
      assert AllAlphanumeric(s[..n - 1]) && AllAlphanumeric(t[..n - 1]) by {
        assert s[..n - 1] == s[..n][..n - 1] && t[..n - 1] == t[..n][..n - 1];
      }
      TotalDiffers(s, t, i, n - 1);
    }
  }

  /** Equal prefixes have equal totals. */
  lemma {:induction false} TotalSame(s: string, t: string, n: nat)
    requires n <= |s| && n <= |t| && AllAlphanumeric(s[..n]) && s[..n] == t[..n]
    ensures AllAlphanumeric(t[..n]) && Total(s, n) == Total(t, n)
  {
    if n > 0 {
      assert s[..n - 1] == s[..n][..n - 1] && t[..n - 1] == t[..n][..n - 1];
      assert s[n - 1] == s[..n][n - 1] && t[n - 1] == t[..n][n - 1];
      TotalSame(s, t, n - 1);
    }
  }

  /** The check letter detects every single substitution of a digit by another digit or a
      letter by another letter among the first fifteen characters. */
  lemma CheckLetterDetectsSubstitution(s: string, t: string, i: nat)
    requires Format(s) && Format(t) && i < 15 && s[i] != t[i]
    requires forall j :: 0 <= j < 15 && j != i ==> s[j] == t[j]
    requires IsDigit(s[i]) <==> IsDigit(t[i])
    ensures CheckLetter(s) != CheckLetter(t)
  {
    FormatAlphanumeric(s);
    FormatAlphanumeric(t);
    assert s[i] == s[..15][i] && t[i] == t[..15][i];
    TotalDiffers(s, t, i, 15);
    PositionValueInjective(s[i], t[i], i);
    TableShapes(s[i]);
    TableShapes(t[i]);
    LettersOfTotalsDiffer(Total(s, 15), Total(t, 15), PositionValue(s[i], i), PositionValue(t[i], i));
  }

  /** Totals that differ by the difference of two distinct values below 26 give different
      letters. */
  lemma LettersOfTotalsDiffer(a: int, b: int, vs: int, vt: int)
    requires a - b == vs - vt && 0 <= vs < 26 && 0 <= vt < 26 && vs != vt
    ensures (65 + a % 26) as char != (65 + b % 26) as char
  {
    if a % 26 == b % 26 {
      assert (a - vs + vs) % 26 == (a - vs + vt) % 26;
      ModCancel(a - vs, 26, vs, vt);
    }
  }

  /** NUMERIC_REPLACEMENT: the letters that stand for digits. */
  const NumericReplacement: map<char, char> :=
    map['L' := '0', 'Q' := '4', 'U' := '8', 'M' := '1', 'R' := '5', 'V' := '9', 'N' := '2',
        'S' := '6', 'P' := '3', 'T' := '7']

  /** One character of `sterilizeNumbers`: a capital letter becomes its digit, or fails when it
      has none; anything else is kept. */
  function SterilizeChar(c: char): Option<char> {
    if IsUpperLetter(c) then
      if c in NumericReplacement then Some(NumericReplacement[c]) else None
    else Some(c)
  }

  /** `sterilizeNumbers(source)`: every character sterilized, or None (null) as soon as one
      fails. */
  function Sterilize(s: string): (r: Option<string>)
    ensures r.Some? <==> forall i :: 0 <= i < |s| ==> SterilizeChar(s[i]).Some?
    ensures r.Some? ==> |r.value| == |s|
    ensures r.Some? ==> forall i :: 0 <= i < |s| ==> r.value[i] == SterilizeChar(s[i]).value
  {
    if |s| == 0 then Some("")
    else
      var c := SterilizeChar(s[|s| - 1]);
      var p := Sterilize(s[..|s| - 1]);
      assert forall i :: 0 <= i < |s| - 1 ==> s[..|s| - 1][i] == s[i];
      if c.None? || p.None? then None else Some(p.value + [c.value])
  }

  /** Digits are kept as they are. */
  lemma SterilizeOfDigits(s: string)
    requires AllDigits(s)
    ensures Sterilize(s) == Some(s)
  {
    forall i | 0 <= i < |s|
      ensures SterilizeChar(s[i]) == Some(s[i])
    {
      assert IsDigit(s[i]);
    }
    var t := Sterilize(s).value;
    assert |t| == |s| && forall i :: 0 <= i < |s| ==> t[i] == s[i];
    assert t == s;
  }

  /** The method form of `sterilizeNumbers`: walks from the last character, appends, and reverses
      the result at the end. */
  method SterilizeNumbers(source: string) returns (r: Option<string>)
    ensures r == Sterilize(source)
  {
    var result := "";
    var i := |source| - 1;
    while i >= 0
      invariant -1 <= i < |source|
      invariant |result| == |source| - 1 - i
      invariant forall j :: i < j < |source| ==> SterilizeChar(source[j]).Some?
      invariant forall k :: 0 <= k < |result| ==>
        result[k] == SterilizeChar(source[|source| - 1 - k]).value
    {
      var ch := source[i];
      var next := SterilizeChar(ch);
      if next.None? {
        return None;
      }
      result := result + [next.value];
      i := i - 1;
    }
    SterilizeReversed(source, result);
    return Some(Reverse(result));
  }

  /** Characters sterilized from the last one to the first, put back in order. */
  lemma SterilizeReversed(source: string, result: string)
    requires |result| == |source|
    requires forall j :: 0 <= j < |source| ==> SterilizeChar(source[j]).Some?
    requires forall k :: 0 <= k < |result| ==> result[k] == SterilizeChar(source[|source| - 1 - k]).value
    ensures Sterilize(source) == Some(Reverse(result))
  {
    var reversed := Reverse(result);
    assert forall k :: 0 <= k < |source| ==> reversed[k] == result[|source| - 1 - k];
    assert reversed == Sterilize(source).value;
  }

  /** The characters of a string in the opposite order. */
  function Reverse(s: string): (r: string)
    ensures |r| == |s| && forall k :: 0 <= k < |s| ==> r[k] == s[|s| - 1 - k]
  {
    seq(|s|, k requires 0 <= k < |s| => s[|s| - 1 - k])
  }

  /** Sterilizing a digit or replacement letter gives a digit. */
  lemma SterilizeGivesDigits(s: string)
    requires AllAlphanumeric(s) && Sterilize(s).Some?
    ensures AllDigits(Sterilize(s).value)
  {
    forall i | 0 <= i < |s| ensures IsDigit(Sterilize(s).value[i]) {
      assert SterilizeChar(s[i]).Some?;
    }
  }

  /** The month a month letter stands for (MONTH_MAP). */
  function MonthOf(m: char): (r: Option<int>)
    ensures r.Some? <==> m in MonthLetters
    ensures r.Some? ==> 1 <= r.value <= 12 && MonthLetters[r.value - 1] == m
  {
    if m == 'A' then Some(1) else if m == 'B' then Some(2) else if m == 'C' then Some(3)
    else if m == 'D' then Some(4) else if m == 'E' then Some(5) else if m == 'H' then Some(6)
    else if m == 'L' then Some(7) else if m == 'M' then Some(8) else if m == 'P' then Some(9)
    else if m == 'R' then Some(10) else if m == 'S' then Some(11) else if m == 'T' then Some(12)
    else None
  }

  /** What `extractBirthday` returns. */
  datatype Birth = Birth(date: Calendar.Date, gender: Gender)

  /** `yearBase + yy`: the 2000s below 50, else the 1900s. */
  function BirthYear(yy: nat): (y: int)
    ensures yy < 100 ==> 1950 <= y <= 2049 && y % 100 == yy
    ensures yy < 50 <==> y < 2050 && y - yy == 2000
  {
    (if yy < 50 then 2000 else 1900) + yy
  }

  /** A sterilized number field read with `Number`: None when it does not sterilize or is
      empty. */
  function NumberField(s: string): (r: Option<nat>)
    requires AllAlphanumeric(s)
    ensures r.Some? <==> Sterilize(s).Some? && |s| > 0
  {
    var t := Sterilize(s);
    if t.None? || t.value == "" then None
    else
      SterilizeGivesDigits(s);
      Some(Decimal(t.value))
  }

  /** The day of the month a day field stands for, and the gender it encodes: 40 and more is a
      woman's, with 40 added. */
  function DayOf(dd: nat): (d: nat)
    ensures d + (if dd >= 40 then 40 else 0) == dd
  {
    if dd < 40 then dd else dd - 40
  }

  /** `extractBirthday(yy, m, dd)`: None unless the month letter is known, both number fields
      sterilize, and the day exists in that month of that year. */
  function ExtractBirthday(yyStr: string, m: char, ddStr: string): (r: Option<Birth>)
    requires AllAlphanumeric(yyStr) && AllAlphanumeric(ddStr)
    ensures r.Some? <==>
      && MonthOf(m).Some? && NumberField(yyStr).Some? && NumberField(ddStr).Some?
      && Calendar.IsValidDate(Calendar.Date(BirthYear(NumberField(yyStr).value), MonthOf(m).value,
                                            DayOf(NumberField(ddStr).value)))
    ensures r.Some? ==>
      var dd := NumberField(ddStr).value;
      && r.value.date == Calendar.Date(BirthYear(NumberField(yyStr).value), MonthOf(m).value, DayOf(dd))
      && (r.value.gender == Female <==> dd >= 40)
  {
    var mm := MonthOf(m);
    var sterilizedDd := NumberField(ddStr);
    var sterilizedYy := NumberField(yyStr);
    if mm.None? || sterilizedDd.None? || sterilizedYy.None? then None
    else
      var yy := sterilizedYy.value;
      var dd := sterilizedDd.value;
      var year := BirthYear(yy);
      var day := DayOf(dd);
      var gender := if dd < 40 then Male else Female;
      if !Calendar.UtcRoundTrips(year, mm.value, day) then None
      else Some(Birth(Calendar.Date(year, mm.value, day), gender))
  }

  /** What `parse` returns. */
  datatype FiscalCode = FiscalCode(surnameConsonants: string, firstnameConsonants: string,
                                   areaCode: string, birthDate: Calendar.Date, gender: Gender,
                                   checksum: char)

  /** `parse(idNumber)`: None unless the format holds, the area digits and the birthday decode,
      and the last letter is the check letter. The area code keeps its letter and has its digits
      sterilized. */
  function Parse(s: string): (r: Option<FiscalCode>)
    ensures r.Some? ==> Format(s) && r.value.checksum == CheckLetter(s) == s[15]
    ensures r.Some? ==> r.value.surnameConsonants == s[..3] && r.value.firstnameConsonants == s[3..6]
    ensures r.Some? ==> Sterilize(s[12..15]).Some? && r.value.areaCode == [s[11]] + Sterilize(s[12..15]).value
    ensures r.Some? ==> ExtractBirthday(s[6..8], s[8], s[9..11]) == Some(Birth(r.value.birthDate, r.value.gender))
    ensures r.Some? <==>
      && Format(s) && Sterilize(s[12..15]).Some? && ExtractBirthday(s[6..8], s[8], s[9..11]).Some?
      && CheckLetter(s) == s[15]
  {
    if !Format(s) then None
    else
      var areaCodeNums := Sterilize(s[12..15]);
      if areaCodeNums.None? || areaCodeNums.value == "" then None
      else
        var dobGender := ExtractBirthday(s[6..8], s[8], s[9..11]);
        if dobGender.None? then None
        else
          var checksum := CheckLetter(s);
          if checksum != s[15] then None
          else
            Some(FiscalCode(s[..3], s[3..6], [s[11]] + areaCodeNums.value,
                            dobGender.value.date, dobGender.value.gender, checksum))
  }

  /** `validate(idNumber)`. */
  predicate Validate(s: string)
    ensures Validate(s) <==>
      && Format(s) && Sterilize(s[12..15]).Some? && ExtractBirthday(s[6..8], s[8], s[9..11]).Some?
      && CheckLetter(s) == s[15]
  {
    Parse(s).Some?
  }

  // ---------------------------------------------------------------------------------------
  // Examples from ita.test.js

  const Sample: string := "MLL" + "SNT" + "82" + "P" + "65" + "Z404" + "U"

  lemma FormatOfSample()
    ensures Format(Sample) && AllAlphanumeric(Sample[..15])
  {
    assert Sample[8] == MonthLetters[8];
  }

  lemma TotalOfSample()
    ensures Format(Sample) && Total(Sample, 15) == 176
  {
    FormatOfSample();
    TotalOfSampleHead();
    assert Total(Sample, 9) == 114;
    assert Total(Sample, 10) == 120;
    assert Total(Sample, 11) == 133;
    assert Total(Sample, 12) == 158;
    assert Total(Sample, 13) == 167;
    assert Total(Sample, 14) == 167;
    assert Total(Sample, 15) == 176;
  }

  lemma TotalOfSampleHead()
    ensures AllAlphanumeric(Sample[..8]) && Total(Sample, 8) == 111
  {
    FormatOfSample();
    assert Sample[..8] == Sample[..15][..8];
    assert Total(Sample, 1) == 18;
    assert Total(Sample, 2) == 29;
    assert Total(Sample, 3) == 33;
    assert Total(Sample, 4) == 51;
    assert Total(Sample, 5) == 71;
    assert Total(Sample, 6) == 90;
    assert Total(Sample, 7) == 109;
    assert Total(Sample, 8) == 111;
  }

  /** The total 176 leaves 20, so the check letter is 'U'. */
  lemma CheckLetterOfSample()
    ensures Format(Sample) && CheckLetter(Sample) == 'U'
  {
    TotalOfSample();
  }

  lemma FieldsOfSample()
    ensures Sample[..3] == "MLL" && Sample[3..6] == "SNT" && Sample[11] == 'Z' && Sample[15] == 'U'
    ensures Sample[6..8] == "82" && Sample[8] == 'P' && Sample[9..11] == "65" && Sample[12..15] == "404"
  {
    NameFieldsOfSample();
    DateFieldsOfSample();
  }

  lemma NameFieldsOfSample()
    ensures Sample[..3] == "MLL" && Sample[3..6] == "SNT" && Sample[11] == 'Z' && Sample[15] == 'U'
  {
  }

  lemma DateFieldsOfSample()
    ensures Sample[6..8] == "82" && Sample[8] == 'P' && Sample[9..11] == "65" && Sample[12..15] == "404"
  {
  }

  lemma SterilizedFieldsOfSample()
    ensures Sterilize("82") == Some("82") && Sterilize("65") == Some("65")
    ensures Sterilize("404") == Some("404")
    ensures NumberField("82") == Some(82) && NumberField("65") == Some(65)
  {
    SterilizeOfDigits("82");
    SterilizeOfDigits("65");
    SterilizeOfDigits("404");
    assert DecimalPrefix("82", 2) == 82 && DecimalPrefix("65", 2) == 65;
  }

  /** '82', 'P', '65': a woman born on 1982-09-25. */
  lemma BirthdayOfSample()
    ensures ExtractBirthday("82", 'P', "65") == Some(Birth(Calendar.Date(1982, 9, 25), Female))
  {
    SterilizedFieldsOfSample();
    assert Calendar.IsValidDate(Calendar.Date(1982, 9, 25));
  }

  /** 'MLLSNT82P65Z404U' parses to consonants 'MLL' and 'SNT', area 'Z404', a woman born on
      1982-09-25, and the check letter 'U'. */
  lemma ParseExample()
    ensures Parse(Sample) == Some(FiscalCode("MLL", "SNT", "Z404", Calendar.Date(1982, 9, 25),
                                             Female, 'U'))
  {
    FormatOfSample();
    FieldsOfSample();
    CheckLetterOfSample();
    BirthdayOfSample();
    SterilizedFieldsOfSample();
    assert [Sample[11]] + "404" == "Z404";
    assert ExtractBirthday(Sample[6..8], Sample[8], Sample[9..11]).Some?;
  }

  /** ita.test.js's invalid codes: one letter short, and 'X' is no month letter. */
  lemma InvalidExamples()
    ensures !Validate("MRTMT91D08F205J") && !Validate("MLLSNT82X65Z404U")
  {
    assert "MLLSNT82X65Z404U"[8] == 'X';
  }
}
