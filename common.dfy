/** Vocabulary shared by every validator: optional results, gender, character classes,
    decimal digit strings, weighted sums, JavaScript's remainder operator, and identifier
    layouts made of digit groups joined by optional one-character separators. */
module Common {

  datatype Option<T> = None | Some(value: T)

  /** A value, or the message of the error the library throws instead. */
  datatype Result<T> = Ok(value: T) | Err(message: string)

  /** The two genders the validators decode (the library's Gender.MALE and Gender.FEMALE).
      Its Gender.UNKNOWN is undefined, so a format that encodes no gender has no gender field. */
  datatype Gender = Male | Female

  /** The library's Citizenship values. */
  datatype Citizenship = Citizen | Resident | Foreign

  /** A decimal digit value. */
  type Digit = x: int | 0 <= x <= 9

  predicate IsDigit(c: char) { '0' <= c <= '9' }

  predicate IsUpperLetter(c: char) { 'A' <= c <= 'Z' }

  predicate IsLowerLetter(c: char) { 'a' <= c <= 'z' }

  predicate AllDigits(s: string) { forall i :: 0 <= i < |s| ==> IsDigit(s[i]) }

  predicate AllUpperLetters(s: string) { forall i :: 0 <= i < |s| ==> IsUpperLetter(s[i]) }

  /** `parseInt(c)` / `Number(c)` of one decimal digit character. */
  function DigitValue(c: char): (v: Digit)
    requires IsDigit(c)
    ensures DigitChar(v) == c
  {
    c as int - '0' as int
  }

  /** The character of a decimal digit (`String(v)` for a single digit). */
  function DigitChar(v: int): (c: char)
    requires 0 <= v <= 9
    ensures IsDigit(c)
  {
    (v + '0' as int) as char
  }

  /** `s.split('').map(Number)` for a digit string. */
  function Digits(s: string): (ds: seq<Digit>)
    requires AllDigits(s)
    ensures |ds| == |s|
    ensures forall i :: 0 <= i < |s| ==> ds[i] == DigitValue(s[i])
  {
    seq(|s|, i requires 0 <= i < |s| => DigitValue(s[i]))
  }

  /** The decimal value of the first n characters of a digit string. */
  function DecimalPrefix(s: string, n: nat): (v: nat)
    requires n <= |s| && AllDigits(s)
    ensures v < Pow10(n)
  {
    if n == 0 then 0 else 10 * DecimalPrefix(s, n - 1) + DigitValue(s[n - 1])
  }

  function Pow10(n: nat): (p: nat)
    ensures p >= 1
  {
    if n == 0 then 1 else 10 * Pow10(n - 1)
  }

  /** `Number(s)` / `parseInt(s, 10)` of a digit string. */
  function Decimal(s: string): (v: nat)
    requires AllDigits(s)
    ensures v < Pow10(|s|)
  {
    DecimalPrefix(s, |s|)
  }

  /** The decimal value of a prefix depends only on that prefix. */
  lemma {:induction false} DecimalPrefixSame(s: string, t: string, n: nat)
    requires n <= |s| && n <= |t| && AllDigits(s) && AllDigits(t) && s[..n] == t[..n]
    ensures DecimalPrefix(s, n) == DecimalPrefix(t, n)
  {
    if n > 0 {
      assert s[n - 1] == s[..n][n - 1] && t[n - 1] == t[..n][n - 1];
      assert s[..n - 1] == s[..n][..n - 1] && t[..n - 1] == t[..n][..n - 1];
      DecimalPrefixSame(s, t, n - 1);
    }
  }

  /** Appending a digit multiplies the value by ten and adds the digit. */
  lemma DecimalAppend(s: string, c: char)
    requires AllDigits(s) && IsDigit(c)
    ensures AllDigits(s + [c]) && Decimal(s + [c]) == 10 * Decimal(s) + DigitValue(c)
  {
    assert (s + [c])[..|s|] == s[..|s|];
    DecimalPrefixSame(s + [c], s, |s|);
  }

  /** `String(n)` of a nonnegative integer: its decimal digits without leading zeros. */
  function NatString(n: nat): (s: string)
    ensures AllDigits(s) && 1 <= |s|
    ensures Decimal(s) == n
    ensures n > 0 ==> s[0] != '0'
    ensures n < 10 ==> |s| == 1
    ensures 10 <= n < 100 ==> |s| == 2
    ensures 1000 <= n < 10000 ==> |s| == 4
    decreases n
  {
    if n < 10 then
      assert Decimal([DigitChar(n)]) == DecimalPrefix([DigitChar(n)], 0) * 10 + n;
      [DigitChar(n)]
    else
      var p := NatString(n / 10);
      DecimalAppend(p, DigitChar(n % 10));
      p + [DigitChar(n % 10)]
  }

  /** `s.padStart(2, '0')`. */
  function PadStart2(s: string): (p: string)
    ensures |s| >= 2 ==> p == s
    ensures |s| < 2 ==> |p| == 2 && p[2 - |s|..] == s && forall i :: 0 <= i < 2 - |s| ==> p[i] == '0'
  {
    if |s| >= 2 then s else seq(2 - |s|, _ => '0') + s
  }

  /** A leading zero does not change a decimal value. */
  lemma DecimalLeadingZero(s: string)
    requires AllDigits(s) && |s| >= 1
    ensures AllDigits("0" + s) && Decimal("0" + s) == Decimal(s)
    decreases |s|
  {
    var t := "0" + s;
    var c := s[|s| - 1];
    var s' := s[..|s| - 1];
    assert s == s' + [c];
    assert t == ("0" + s') + [c];
    DecimalAppend(s', c);
    if |s'| == 0 {
      assert "0" + s' == "0";
      assert Decimal("0") == 0;
    } else {
      DecimalLeadingZero(s');
    }
    DecimalAppend("0" + s', c);
  }

  /** The two-digit text of a day or month number. */
  lemma PadStart2Decimal(n: nat)
    requires n < 100
    ensures var p := PadStart2(NatString(n)); |p| == 2 && AllDigits(p) && Decimal(p) == n
  {
    if n < 10 {
      DecimalLeadingZero(NatString(n));
      assert PadStart2(NatString(n)) == "0" + NatString(n);
    }
  }

  /** The `${year}-${month.padStart(2, '0')}-${day.padStart(2, '0')}` text of a birth date. */
  function BirthDateString(year: nat, month: nat, day: nat): string {
    NatString(year) + "-" + PadStart2(NatString(month)) + "-" + PadStart2(NatString(day))
  }

  /** For four-digit years and two-digit months and days the text reads back as the date. */
  lemma BirthDateStringReadsBack(year: nat, month: nat, day: nat)
    requires 1000 <= year < 10000 && month < 100 && day < 100
    ensures var b := BirthDateString(year, month, day);
      && |b| == 10 && b[4] == '-' && b[7] == '-'
      && AllDigits(b[..4]) && AllDigits(b[5..7]) && AllDigits(b[8..])
      && Decimal(b[..4]) == year && Decimal(b[5..7]) == month && Decimal(b[8..]) == day
  {
    var y, m, d := NatString(year), PadStart2(NatString(month)), PadStart2(NatString(day));
    PadStart2Decimal(month);
    PadStart2Decimal(day);
    var b := BirthDateString(year, month, day);
    assert b == y + "-" + m + "-" + d;
    assert b[..4] == y && b[5..7] == m && b[8..] == d;
  }

  /** The sum of ds[i] * ws[i] over the first n positions. */
  function WeightedSum(ds: seq<int>, ws: seq<int>, n: nat): int
    requires n <= |ds| && n <= |ws|
  {
    if n == 0 then 0 else WeightedSum(ds, ws, n - 1) + ds[n - 1] * ws[n - 1]
  }

  /** With nonnegative digits and weights the weighted sum is nonnegative. */
  lemma {:induction false} WeightedSumNonnegative(ds: seq<int>, ws: seq<int>, n: nat)
    requires n <= |ds| && n <= |ws|
    requires forall i :: 0 <= i < n ==> ds[i] >= 0 && ws[i] >= 0
    ensures WeightedSum(ds, ws, n) >= 0
  {
    if n > 0 {
      WeightedSumNonnegative(ds, ws, n - 1);
    }
  }

  /** The weighted sum only depends on the first n digits and weights. */
  lemma {:induction false} WeightedSumPrefix(ds: seq<int>, ws: seq<int>, ds': seq<int>, ws': seq<int>, n: nat)
    requires n <= |ds| && n <= |ws| && n <= |ds'| && n <= |ws'|
    requires ds[..n] == ds'[..n] && ws[..n] == ws'[..n]
    ensures WeightedSum(ds, ws, n) == WeightedSum(ds', ws', n)
  {
    if n > 0 {
      assert ds[n - 1] == ds[..n][n - 1] && ds'[n - 1] == ds'[..n][n - 1];
      assert ws[n - 1] == ws[..n][n - 1] && ws'[n - 1] == ws'[..n][n - 1];
      assert ds[..n - 1] == ds[..n][..n - 1] && ds'[..n - 1] == ds'[..n][..n - 1];
      assert ws[..n - 1] == ws[..n][..n - 1] && ws'[..n - 1] == ws'[..n][..n - 1];
      WeightedSumPrefix(ds, ws, ds', ws', n - 1);
    }
  }

  /** JavaScript's `a % b`: the remainder of division truncated toward zero, so it takes
      the sign of the dividend (Dafny's `%` is Euclidean and never negative). */
  function JsRem(a: int, b: int): (r: int)
    requires b > 0
    ensures a >= 0 ==> r == a % b
    ensures a < 0 ==> -b < r <= 0 && r == -((-a) % b)
  {
    if a >= 0 then a % b else -((-a) % b)
  }

  /** JavaScript's remainder differs from the dividend by a multiple of the divisor. */
  lemma JsRemCongruent(a: int, b: int)
    requires b > 0
    ensures (a - JsRem(a, b)) % b == 0
  {
    if a < 0 {
      var q, r := (-a) / b, (-a) % b;
      assert -a == q * b + r;
      assert a - JsRem(a, b) == a + r == (-q) * b;
      ModUnique(a + r, b, -q, 0);
    } else {
      assert a == (a / b) * b + a % b;
      ModUnique(a - a % b, b, a / b, 0);
    }
  }

  /** `b - a % b` is what must be added to a to reach a multiple of b. */
  lemma ModComplement(a: int, b: int)
    requires b > 0
    ensures (a + (b - a % b)) % b == 0
  {
    assert a == (a / b) * b + a % b;
    ModUnique(a + (b - a % b), b, a / b + 1, 0);
  }

  /** Euclidean division has one quotient and one remainder. */
  lemma ModUnique(a: int, b: int, q: int, r: int)
    requires b > 0 && a == q * b + r && 0 <= r < b
    ensures a % b == r && a / b == q
  {
    var q', r' := a / b, a % b;
    assert a == q' * b + r';
    if q' > q {
      assert (q' - q) * b == q' * b - q * b;
      MulAtLeast(q' - q, b);
      assert false;
    } else if q' < q {
      assert (q - q') * b == q * b - q' * b;
      MulAtLeast(q - q', b);
      assert false;
    }
  }

  /** Two residues below b that leave the same remainder when added to a are equal. */
  lemma ModCancel(a: int, b: int, c: int, e: int)
    requires b > 0 && 0 <= c < b && 0 <= e < b && (a + c) % b == (a + e) % b
    ensures c == e
  {
    var q, r := a / b, a % b;
    assert a == q * b + r;
    if r + c < b {
      ModUnique(a + c, b, q, r + c);
    } else {
      ModUnique(a + c, b, q + 1, r + c - b);
    }
    if r + e < b {
      ModUnique(a + e, b, q, r + e);
    } else {
      ModUnique(a + e, b, q + 1, r + e - b);
    }
  }

  lemma {:induction false} MulAtLeast(k: int, b: int)
    requires k >= 1 && b > 0
    ensures k * b >= b
    decreases k
  {
    if k > 1 {
      MulAtLeast(k - 1, b);
      assert k * b == (k - 1) * b + b;
    }
  }

  function Abs(x: int): nat { if x < 0 then -x else x }

  /** The characters JavaScript's `\s` matches. */
  const JsWhitespace: set<char> := {
    ' ', '\t', '\n', '\r', '\U{000B}', '\U{000C}', '\U{00A0}', '\U{1680}',
    '\U{2000}', '\U{2001}', '\U{2002}', '\U{2003}', '\U{2004}', '\U{2005}', '\U{2006}',
    '\U{2007}', '\U{2008}', '\U{2009}', '\U{200A}', '\U{2028}', '\U{2029}', '\U{202F}',
    '\U{205F}', '\U{3000}', '\U{FEFF}'
  }

  /** No JavaScript whitespace character is a decimal digit. */
  lemma JsWhitespaceNotDigits()
    ensures forall c :: c in JsWhitespace ==> !IsDigit(c)
  {
  }

  function SumFrom(lens: seq<nat>, k: nat): nat
    requires k <= |lens|
    decreases |lens| - k
  {
    if k == |lens| then 0 else lens[k] + SumFrom(lens, k + 1)
  }

  /** g followed by the digits of a layout's remainder, if it had the layout. */
  function Prepend(g: string, r: Option<string>): (p: Option<string>)
    ensures p.Some? <==> r.Some?
    ensures p.Some? ==> p.value == g + r.value
  {
    match r
    case None => None
    case Some(t) => Some(g + t)
  }

  /** Reads s[i..] against an identifier layout: groups of lens[k], lens[k + 1], ... decimal
      digits where group k and group k + 1 may be joined by one character of seps[k]. Yields the
      concatenated digit groups when s[i..] has the layout (what the format expressions with
      `(\d{n})[ -]?` parts capture), None otherwise. */
  function LayoutFrom(s: string, i: nat, lens: seq<nat>, seps: seq<set<char>>, k: nat): (r: Option<string>)
    requires i <= |s| && k < |lens| && |seps| + 1 == |lens|
    ensures r.Some? ==> AllDigits(r.value) && |r.value| == SumFrom(lens, k)
    decreases |lens| - k
  {
    if i + lens[k] > |s| || !AllDigits(s[i..i + lens[k]]) then None
    else if k + 1 == |lens| then (if i + lens[k] == |s| then Some(s[i..i + lens[k]]) else None)
    else if i + lens[k] < |s| && s[i + lens[k]] in seps[k] then
      Prepend(s[i..i + lens[k]], LayoutFrom(s, i + lens[k] + 1, lens, seps, k + 1))
    else
      Prepend(s[i..i + lens[k]], LayoutFrom(s, i + lens[k], lens, seps, k + 1))
  }

  /** A digit group followed by its separator: the groups read from i are this group and the
      groups read after the separator. */
  lemma LayoutFromSeparated(s: string, i: nat, lens: seq<nat>, seps: seq<set<char>>, k: nat, rest: string)
    requires i <= |s| && k + 1 < |lens| && |seps| + 1 == |lens|
    requires i + lens[k] < |s| && AllDigits(s[i..i + lens[k]]) && s[i + lens[k]] in seps[k]
    requires LayoutFrom(s, i + lens[k] + 1, lens, seps, k + 1) == Some(rest)
    ensures LayoutFrom(s, i, lens, seps, k) == Some(s[i..i + lens[k]] + rest)
  {
  }

  /** The last digit group, ending the string. */
  lemma LayoutFromLast(s: string, i: nat, lens: seq<nat>, seps: seq<set<char>>, k: nat)
    requires i <= |s| && k + 1 == |lens| && |seps| + 1 == |lens|
    requires i + lens[k] == |s| && AllDigits(s[i..])
    ensures LayoutFrom(s, i, lens, seps, k) == Some(s[i..])
  {
    assert s[i..i + lens[k]] == s[i..];
  }

  /** The digit groups of s when s has the layout, None otherwise. */
  function Layout(s: string, lens: seq<nat>, seps: seq<set<char>>): (r: Option<string>)
    requires |lens| >= 1 && |seps| + 1 == |lens|
    ensures r.Some? ==> AllDigits(r.value) && |r.value| == SumFrom(lens, 0)
  {
    LayoutFrom(s, 0, lens, seps, 0)
  }

  /** s with every character of cs removed (`s.replace(/[...]/g, '')` for a character class). */
  function Without(s: string, cs: set<char>): (r: string)
    ensures |r| <= |s|
  {
    if s == [] then [] else (if s[0] in cs then [] else [s[0]]) + Without(s[1..], cs)
  }

  /** `Without` drops exactly the characters of cs: none of them is left, and a string without
      them is kept whole. */
  lemma {:induction false} WithoutRemoves(s: string, cs: set<char>)
    ensures forall i :: 0 <= i < |Without(s, cs)| ==> Without(s, cs)[i] !in cs
    ensures (forall i :: 0 <= i < |s| ==> s[i] !in cs) ==> Without(s, cs) == s
  {
    if s != [] {
      WithoutRemoves(s[1..], cs);
      assert (forall i :: 0 <= i < |s| ==> s[i] !in cs) ==> (forall i :: 0 <= i < |s[1..]| ==> s[1..][i] !in cs);
      assert s == [s[0]] + s[1..];
    }
  }

  lemma {:induction false} WithoutAppend(a: string, b: string, cs: set<char>)
    ensures Without(a + b, cs) == Without(a, cs) + Without(b, cs)
  {
    if a == [] {
      assert a + b == b;
    } else {
      assert (a + b)[0] == a[0] && (a + b)[1..] == a[1..] + b;
      WithoutAppend(a[1..], b, cs);
    }
  }

  lemma {:induction false} WithoutDigits(s: string, cs: set<char>)
    requires AllDigits(s) && forall c :: c in cs ==> !IsDigit(c)
    ensures Without(s, cs) == s
  {
    if s != [] {
      assert s[0] !in cs;
      WithoutDigits(s[1..], cs);
    }
  }

  /** A string of exactly as many digits as the layout's groups together has the layout, when
      no separator is a digit. */
  lemma {:induction false} LayoutFromAllDigits(s: string, i: nat, lens: seq<nat>, seps: seq<set<char>>, k: nat)
    requires i <= |s| && k < |lens| && |seps| + 1 == |lens|
    requires AllDigits(s) && |s| - i == SumFrom(lens, k)
    requires forall n :: 0 <= n < |seps| ==> forall c :: c in seps[n] ==> !IsDigit(c)
    ensures LayoutFrom(s, i, lens, seps, k) == Some(s[i..])
    decreases |lens| - k
  {
    var j := i + lens[k];
    assert SumFrom(lens, k) == lens[k] + SumFrom(lens, k + 1);
    assert AllDigits(s[i..j]);
    if k + 1 == |lens| {
      assert j == |s| && s[i..j] == s[i..];
    } else {
      if j < |s| {
        assert s[j] !in seps[k];
      }
      LayoutFromAllDigits(s, j, lens, seps, k + 1);
      assert s[i..] == s[i..j] + s[j..];
    }
  }

  lemma LayoutAllDigits(s: string, lens: seq<nat>, seps: seq<set<char>>)
    requires |lens| >= 1 && |seps| + 1 == |lens|
    requires AllDigits(s) && |s| == SumFrom(lens, 0)
    requires forall n :: 0 <= n < |seps| ==> forall c :: c in seps[n] ==> !IsDigit(c)
    ensures Layout(s, lens, seps) == Some(s)
  {
    LayoutFromAllDigits(s, 0, lens, seps, 0);
    assert s[0..] == s;
  }

  /** Skipping one character of cs, or none, does not change what `Without` keeps. */
  lemma SkipSeparator(s: string, j: nat, next: nat, cs: set<char>)
    requires j <= next <= |s| && (next == j || (next == j + 1 && s[j] in cs))
    ensures Without(s[j..], cs) == Without(s[next..], cs)
  {
    if next == j + 1 {
      assert s[j..][1..] == s[next..];
    }
  }

  /** Removing the separator characters from a string with the layout leaves exactly its digit
      groups, provided no separator is a digit: the library's `normalize` of a well-formed
      identifier yields what the format expression captured. */
  lemma {:induction false} LayoutFromWithout(s: string, i: nat, lens: seq<nat>, seps: seq<set<char>>, k: nat,
                                             cs: set<char>)
    requires i <= |s| && k < |lens| && |seps| + 1 == |lens|
    requires LayoutFrom(s, i, lens, seps, k).Some?
    requires forall n :: 0 <= n < |seps| ==> seps[n] <= cs
    requires forall c :: c in cs ==> !IsDigit(c)
    ensures Without(s[i..], cs) == LayoutFrom(s, i, lens, seps, k).value
    decreases |lens| - k
  {
    var j := i + lens[k];
    assert s[i..] == s[i..j] + s[j..];
    WithoutAppend(s[i..j], s[j..], cs);
    WithoutDigits(s[i..j], cs);
    if k + 1 < |lens| {
      var next := if j < |s| && s[j] in seps[k] then j + 1 else j;
      assert next == j + 1 ==> s[j] in cs;
      SkipSeparator(s, j, next, cs);
      var rest := LayoutFrom(s, next, lens, seps, k + 1);
      assert LayoutFrom(s, i, lens, seps, k) == Prepend(s[i..j], rest);
      LayoutFromWithout(s, next, lens, seps, k + 1, cs);
    } else {
      assert j == |s| && s[j..] == [];
    }
  }

  /** The digit groups of a string with the layout are what removing its separators leaves. */
  lemma LayoutWithout(s: string, lens: seq<nat>, seps: seq<set<char>>, cs: set<char>)
    requires |lens| >= 1 && |seps| + 1 == |lens| && Layout(s, lens, seps).Some?
    requires forall n :: 0 <= n < |seps| ==> seps[n] <= cs
    requires forall c :: c in cs ==> !IsDigit(c)
    ensures Without(s, cs) == Layout(s, lens, seps).value
  {
    assert s[0..] == s;
    LayoutFromWithout(s, 0, lens, seps, 0, cs);
  }

  /** A character kept by the digit filter, or nothing. */
  function Kept(c: char): (r: string)
    ensures AllDigits(r) && |r| <= 1
    ensures IsDigit(c) <==> r == [c]
  {
    if IsDigit(c) then [c] else []
  }

  /** `s.replace(/\D/g, '')`: the decimal digits of s, in order. */
  function KeepDigits(s: string): (r: string)
    ensures AllDigits(r) && |r| <= |s|
    ensures AllDigits(s) ==> r == s
  {
    if |s| == 0 then ""
    else
      assert AllDigits(s) ==> AllDigits(s[1..]);
      Kept(s[0]) + KeepDigits(s[1..])
  }

  /** Removing non-digits distributes over concatenation. */
  lemma {:induction false} KeepDigitsAppend(a: string, b: string)
    ensures KeepDigits(a + b) == KeepDigits(a) + KeepDigits(b)
  {
    if |a| == 0 {
      assert a + b == b;
    } else {
      assert (a + b)[0] == a[0] && (a + b)[1..] == a[1..] + b;
      KeepDigitsAppend(a[1..], b);
      AppendAssociative(Kept(a[0]), KeepDigits(a[1..]), KeepDigits(b));
    }
  }

  lemma AppendAssociative(x: string, y: string, z: string)
    ensures (x + y) + z == x + (y + z)
  {
  }

  /** A single non-digit is removed. */
  lemma KeepDigitsNonDigit(c: char)
    requires !IsDigit(c)
    ensures KeepDigits([c]) == []
  {
    assert [c][1..] == [];
  }

  /** A digit group, a separator and the rest: the filter keeps the group and filters the rest. */
  lemma KeepDigitsSeparated(a: string, c: char, b: string)
    requires AllDigits(a) && !IsDigit(c)
    ensures KeepDigits(a + [c] + b) == a + KeepDigits(b)
  {
    KeepDigitsAppend(a + [c], b);
    KeepDigitsAppend(a, [c]);
    KeepDigitsNonDigit(c);
    assert a + [] == a;
  }

  /** True iff every character of s is the same (the `^(\d)\1{k}$` tests on digit strings). */
  predicate AllSame(s: string) { forall i :: 0 <= i < |s| ==> s[i] == s[0] }

  /** ASCII upper-casing of one character (`toUpperCase` on the characters these formats allow). */
  function ToUpper(c: char): (u: char)
    ensures IsLowerLetter(c) ==> IsUpperLetter(u) && u as int == c as int - 32
    ensures !IsLowerLetter(c) ==> u == c
  {
    if IsLowerLetter(c) then (c as int - 32) as char else c
  }

  function ToUpperString(s: string): (u: string)
    ensures |u| == |s| && forall i :: 0 <= i < |s| ==> u[i] == ToUpper(s[i])
  {
    seq(|s|, i requires 0 <= i < |s| => ToUpper(s[i]))
  }

  /** `s.replace(c, '')` with a string pattern: only the first occurrence of c is removed. */
  function ReplaceFirst(s: string, c: char): (r: string)
    ensures c !in s ==> r == s
  {
    ReplaceFirstFromAbsent(s, c, 0);
    ReplaceFirstFrom(s, c, 0)
  }

  /** ReplaceFirst once s[..i] is known to hold no c. */
  function ReplaceFirstFrom(s: string, c: char, i: nat): string
    requires i <= |s|
    decreases |s| - i
  {
    if i == |s| then s
    else if s[i] == c then s[..i] + s[i + 1..]
    else ReplaceFirstFrom(s, c, i + 1)
  }

  lemma {:induction false} ReplaceFirstFromAbsent(s: string, c: char, i: nat)
    requires i <= |s|
    ensures c !in s[i..] ==> ReplaceFirstFrom(s, c, i) == s
    decreases |s| - i
  {
    if i < |s| && c !in s[i..] {
      assert s[i] == s[i..][0];
      assert s[i + 1..] == s[i..][1..];
      ReplaceFirstFromAbsent(s, c, i + 1);
    }
  }

  /** When the first c is at index i, replacing it splices it out. */
  lemma {:induction false} ReplaceFirstAt(s: string, c: char, i: nat)
    requires i < |s| && s[i] == c && c !in s[..i]
    ensures ReplaceFirst(s, c) == s[..i] + s[i + 1..]
  {
    ReplaceFirstFromAt(s, c, 0, i);
  }

  lemma {:induction false} ReplaceFirstFromAt(s: string, c: char, k: nat, i: nat)
    requires k <= i < |s| && s[i] == c && c !in s[..i]
    ensures ReplaceFirstFrom(s, c, k) == s[..i] + s[i + 1..]
    decreases i - k
  {
    if k < i {
      assert s[k] == s[..i][k];
      ReplaceFirstFromAt(s, c, k + 1, i);
    }
  }

  /** A digit string has no dash. */
  lemma DigitsHaveNoDash(s: string)
    requires AllDigits(s)
    ensures '-' !in s
  {
  }
}
