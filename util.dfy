/** The check-digit primitives shared by the country validators: Luhn, Verhoeff, weighted
    modulus, the ISO/IEC 7064 hybrid m/n fold, the mod-10 overflow, letter ordinals and the
    EAN-13 style alternating sum. */
module NationalIdUtil {

  import opened Common

  // ---------------------------------------------------------------------------------------
  // Luhn (ISO/IEC 7812-1 Annex B)

  /** What the digit at position idx of the working digits adds to the Luhn total: odd
      positions are doubled, and a doubled value above 9 has 9 taken off. */
  function LuhnTerm(idx: nat, v: Digit): (t: Digit)
    ensures idx % 2 == 0 ==> t == v
    ensures idx % 2 == 1 ==> t == (2 * v) % 10 + (2 * v) / 10
  {
    if idx % 2 == 0 then v else if v > 4 then 2 * v - 9 else 2 * v
  }

  /** The Luhn total of the first n digits of ds, the first of them standing at position off. */
  function LuhnSum(ds: seq<Digit>, off: nat, n: nat): nat
    requires n <= |ds|
  {
    if n == 0 then 0 else LuhnSum(ds, off, n - 1) + LuhnTerm(off + n - 1, ds[n - 1])
  }

  /** The digits luhnDigit works on: a 0 in front when multipliers start by two. */
  function LuhnWorking(ds: seq<Digit>, startByTwo: bool): seq<Digit> {
    if startByTwo then [0] + ds else ds
  }

  /** The Luhn total of the digits luhnDigit works on. */
  function LuhnTotal(ds: seq<Digit>, startByTwo: bool): nat {
    var w := LuhnWorking(ds, startByTwo);
    LuhnSum(w, 0, |w|)
  }

  /** `luhnDigit(digits, multipliersStartByTwo)`: the digit that brings the Luhn total to a
      multiple of 10. */
  function LuhnDigit(ds: seq<Digit>, startByTwo: bool): (r: Digit)
    ensures (LuhnTotal(ds, startByTwo) + r) % 10 == 0
  {
    (10 - LuhnTotal(ds, startByTwo) % 10) % 10
  }

  /** The check digit is the only digit that completes the total. */
  lemma {:induction false} LuhnDigitUnique(ds: seq<Digit>, startByTwo: bool, c: Digit)
    requires (LuhnTotal(ds, startByTwo) + c) % 10 == 0
    ensures c == LuhnDigit(ds, startByTwo)
  {
    ComplementDigitUnique(LuhnTotal(ds, startByTwo), c);
  }

  /** The one digit that brings t to a multiple of 10 is (10 - t % 10) % 10. */
  lemma ComplementDigitUnique(t: int, c: int)
    requires 0 <= c <= 9 && (t + c) % 10 == 0
    ensures c == (10 - t % 10) % 10
  {
    assert t == (t / 10) * 10 + t % 10;
    if c == 0 {
      ModUnique(t, 10, t / 10, 0);
    } else {
      ModUnique(t + c, 10, t / 10 + 1, 0);
    }
  }

  /** The loop of luhnDigit, accumulating the total over the working digits. */
  method ComputeLuhnDigit(digits: seq<Digit>, startByTwo: bool) returns (r: int)
    ensures r == LuhnDigit(digits, startByTwo)
  {
    var working := if startByTwo then [0] + digits else digits;
    var totalSum: int := 0;
    var idx := 0;
    while idx < |working|
      invariant 0 <= idx <= |working|
      invariant working == LuhnWorking(digits, startByTwo)
      invariant totalSum == LuhnSum(working, 0, idx)
    {
      var intVal: int := working[idx];
      if idx % 2 == 0 {
        totalSum := totalSum + intVal;
      } else if intVal > 4 {
        totalSum := totalSum + 2 * intVal - 9;
      } else {
        totalSum := totalSum + 2 * intVal;
      }
      idx := idx + 1;
    }
    r := (10 - totalSum % 10) % 10;
  }

  /** A 0 in front shifts every digit by one position. */
  lemma {:induction false} LuhnSumPrependZero(ds: seq<Digit>, off: nat, n: nat)
    requires n <= |ds|
    ensures LuhnSum([0] + ds, off, n + 1) == LuhnSum(ds, off + 1, n)
  {
    if n > 0 {
      LuhnSumPrependZero(ds, off, n - 1);
      assert ([0] + ds)[n] == ds[n - 1];
    }
  }

  /** With multipliers starting by two the doubling starts at the first digit. */
  lemma {:induction false} LuhnStartByTwo(ds: seq<Digit>)
    ensures LuhnTotal(ds, true) == LuhnSum(ds, 1, |ds|)
  {
    var w := LuhnWorking(ds, true);
    assert w == [0] + ds && |w| == |ds| + 1;
    LuhnSumPrependZero(ds, 0, |ds|);
  }

  /** The Luhn total of a prefix does not depend on the digits after it. */
  lemma {:induction false} LuhnSumPrefix(ds: seq<Digit>, es: seq<Digit>, off: nat, n: nat)
    requires n <= |ds| && n <= |es| && ds[..n] == es[..n]
    ensures LuhnSum(ds, off, n) == LuhnSum(es, off, n)
  {
    if n > 0 {
      assert ds[n - 1] == ds[..n][n - 1] && es[n - 1] == es[..n][n - 1];
      assert ds[..n - 1] == ds[..n][..n - 1] && es[..n - 1] == es[..n][..n - 1];
      LuhnSumPrefix(ds, es, off, n - 1);
    }
  }

  /** A number of odd length passes the Luhn test (its luhnDigit is 0) exactly when its last
      digit is the luhnDigit of the digits before it. */
  lemma LuhnAppend(ds: seq<Digit>, c: Digit)
    requires |ds| % 2 == 0
    ensures LuhnDigit(ds + [c], false) == 0 <==> c == LuhnDigit(ds, false)
  {
    var w := ds + [c];
    assert w[..|ds|] == ds[..|ds|];
    LuhnSumPrefix(w, ds, 0, |ds|);
    assert LuhnTotal(w, false) == LuhnTotal(ds, false) + c;
    if c == LuhnDigit(ds, false) {
      assert LuhnTotal(w, false) % 10 == 0;
    } else if LuhnDigit(w, false) == 0 {
      LuhnDigitUnique(ds, false, c);
    }
  }

  /** util.test.js: luhnDigit([1..8]) is 2, and 6 with multipliers starting by two. */
  lemma LuhnDigitExamples()
    ensures LuhnDigit([1, 2, 3, 4, 5, 6, 7, 8], false) == 2
    ensures LuhnDigit([1, 2, 3, 4, 5, 6, 7, 8], true) == 6
  {
    LuhnDigitOf12345678();
    LuhnDigitOf12345678ByTwo();
  }

  /** 1 + 4 + 3 + 8 + 5 + 3 + 7 + 7 = 38 (6 and 8 double to 12 and 16, counted as 3 and 7). */
  lemma LuhnDigitOf12345678()
    ensures LuhnDigit([1, 2, 3, 4, 5, 6, 7, 8], false) == 2
  {
    var ds: seq<Digit> := [1, 2, 3, 4, 5, 6, 7, 8];
    assert LuhnSum(ds, 0, 2) == 5;
    assert LuhnSum(ds, 0, 4) == 16;
    assert LuhnSum(ds, 0, 6) == 24;
    assert LuhnSum(ds, 0, 8) == 38;
  }

  /** With a 0 in front: 0 + 2 + 2 + 6 + 4 + 1 + 6 + 5 + 8 = 34. */
  lemma LuhnDigitOf12345678ByTwo()
    ensures LuhnDigit([1, 2, 3, 4, 5, 6, 7, 8], true) == 6
  {
    var w: seq<Digit> := [0, 1, 2, 3, 4, 5, 6, 7, 8];
    assert LuhnWorking([1, 2, 3, 4, 5, 6, 7, 8], true) == w;
    assert LuhnSum(w, 0, 2) == 2;
    assert LuhnSum(w, 0, 4) == 10;
    assert LuhnSum(w, 0, 6) == 15;
    assert LuhnSum(w, 0, 8) == 26;
    assert LuhnSum(w, 0, 9) == 34;
  }

  // ---------------------------------------------------------------------------------------
  // Verhoeff

  /** Row k of `D_TABLE`, the multiplication table of the dihedral group D5. */
  function VerhoeffDRow(k: Digit): (row: seq<Digit>)
    ensures |row| == 10
  {
    if k == 0 then [0, 1, 2, 3, 4, 5, 6, 7, 8, 9]
    else if k == 1 then [1, 2, 3, 4, 0, 6, 7, 8, 9, 5]
    else if k == 2 then [2, 3, 4, 0, 1, 7, 8, 9, 5, 6]
    else if k == 3 then [3, 4, 0, 1, 2, 8, 9, 5, 6, 7]
    else if k == 4 then [4, 0, 1, 2, 3, 9, 5, 6, 7, 8]
    else if k == 5 then [5, 9, 8, 7, 6, 0, 4, 3, 2, 1]
    else if k == 6 then [6, 5, 9, 8, 7, 1, 0, 4, 3, 2]
    else if k == 7 then [7, 6, 5, 9, 8, 2, 1, 0, 4, 3]
    else if k == 8 then [8, 7, 6, 5, 9, 3, 2, 1, 0, 4]
    else [9, 8, 7, 6, 5, 4, 3, 2, 1, 0]
  }

  /** Row k of `P_TABLE`, the position permutation table. */
  function VerhoeffPRow(k: nat): (row: seq<Digit>)
    requires k < 8
    ensures |row| == 10
  {
    if k == 0 then [0, 1, 2, 3, 4, 5, 6, 7, 8, 9]
    else if k == 1 then [1, 5, 7, 6, 2, 8, 3, 0, 9, 4]
    else if k == 2 then [5, 8, 0, 3, 7, 9, 6, 1, 4, 2]
    else if k == 3 then [8, 9, 1, 6, 0, 4, 3, 5, 2, 7]
    else if k == 4 then [9, 4, 5, 3, 1, 2, 6, 8, 7, 0]
    else if k == 5 then [4, 2, 8, 6, 5, 7, 3, 9, 0, 1]
    else if k == 6 then [2, 7, 9, 3, 8, 0, 6, 4, 1, 5]
    else [7, 0, 4, 6, 9, 1, 3, 2, 5, 8]
  }

  /** `D_TABLE[c][x]`. */
  function VerhoeffD(c: Digit, x: Digit): Digit {
    VerhoeffDRow(c)[x]
  }

  /** `P_TABLE[k][x]`. */
  function VerhoeffP(k: nat, x: Digit): Digit
    requires k < 8
  {
    VerhoeffPRow(k)[x]
  }

  /** One step of the fold over the reversed digits. */
  function VerhoeffStep(c: Digit, idx: nat, num: Digit): Digit {
    VerhoeffD(c, VerhoeffP(idx % 8, num))
  }

  /** The fold state after the last n digits of ds, taken from the right. */
  function VerhoeffState(ds: seq<Digit>, n: nat): Digit
    requires n <= |ds|
  {
    if n == 0 then 0 else VerhoeffStep(VerhoeffState(ds, n - 1), n - 1, ds[|ds| - n])
  }

  lemma VerhoeffStateNext(ds: seq<Digit>, n: nat)
    requires n < |ds|
    ensures VerhoeffState(ds, n + 1) == VerhoeffD(VerhoeffState(ds, n), VerhoeffP(n % 8, ds[|ds| - 1 - n]))
  {
  }

  /** The digits pass the Verhoeff test: folding them from the right ends at 0. */
  predicate VerhoeffValid(ds: seq<Digit>) {
    VerhoeffState(ds, |ds|) == 0
  }

  function Reversed(ds: seq<Digit>): (rs: seq<Digit>)
    ensures |rs| == |ds| && forall i :: 0 <= i < |ds| ==> rs[i] == ds[|ds| - 1 - i]
  {
    seq(|ds|, i requires 0 <= i < |ds| => ds[|ds| - 1 - i])
  }

  /** `verhoeffCheck(digits)`: reverses the digits and folds them through the tables. */
  method VerhoeffCheck(digits: seq<Digit>) returns (ok: bool)
    ensures ok == VerhoeffValid(digits)
  {
    var revDigits := Reversed(digits);
    var c: Digit := 0;
    var idx := 0;
    while idx < |revDigits|
      invariant 0 <= idx <= |revDigits| == |digits|
      invariant c == VerhoeffState(digits, idx)
    {
      var pVal := VerhoeffP(idx % 8, revDigits[idx]);
      assert revDigits[idx] == digits[|digits| - 1 - idx];
      VerhoeffStateNext(digits, idx);
      c := VerhoeffD(c, pVal);
      idx := idx + 1;
    }
    ok := c == 0;
  }

  /** util.test.js: verhoeffCheck([1,2,3,4,5]) is false. */
  lemma VerhoeffRejects12345()
    ensures !VerhoeffValid([1, 2, 3, 4, 5])
  {
    var ds: seq<Digit> := [1, 2, 3, 4, 5];
    assert VerhoeffState(ds, 1) == 5;
    assert VerhoeffState(ds, 2) == 8;
    assert VerhoeffState(ds, 3) == 5;
    assert VerhoeffState(ds, 4) == 9;
    assert VerhoeffState(ds, 5) == 5;
  }

  /** util.test.js: verhoeffCheck([0,0,0,0]) is false. */
  lemma VerhoeffRejectsZeros()
    ensures !VerhoeffValid([0, 0, 0, 0])
  {
    var ds: seq<Digit> := [0, 0, 0, 0];
    assert VerhoeffState(ds, 1) == 0;
    assert VerhoeffState(ds, 2) == 1;
    assert VerhoeffState(ds, 3) == 6;
    assert VerhoeffState(ds, 4) == 3;
  }

  /** 236 followed by its Verhoeff check digit 3 passes. */
  lemma VerhoeffAccepts2363()
    ensures VerhoeffValid([2, 3, 6, 3])
  {
    var ds: seq<Digit> := [2, 3, 6, 3];
    assert VerhoeffState(ds, 1) == 3;
    assert VerhoeffState(ds, 2) == 1;
    assert VerhoeffState(ds, 3) == 4;
    assert VerhoeffState(ds, 4) == 0;
  }

  // ---------------------------------------------------------------------------------------
  // Weighted modulus

  /** `weights ?? Array(numbers.length).fill(1)`. */
  function ActualWeights(numbers: seq<Digit>, weights: Option<seq<int>>): (ws: seq<int>)
    ensures weights.None? ==> |ws| == |numbers| && forall i :: 0 <= i < |ws| ==> ws[i] == 1
  {
    match weights
    case None => seq(|numbers|, _ => 1)
    case Some(w) => w
  }

  /** `weightedModulusDigit(numbers, weights, divider, modulusOnly)`: the weighted sum modulo the
      divider (JavaScript's `%`), or the divider minus it. An error when there are more numbers
      than weights. */
  function WeightedModulusDigit(numbers: seq<Digit>, weights: Option<seq<int>>, divider: int,
                                modulusOnly: bool): (r: Result<int>)
    requires divider > 0
    ensures r.Err? <==> |numbers| > |ActualWeights(numbers, weights)|
    ensures r.Ok? ==>
      var s := WeightedSum(numbers, ActualWeights(numbers, weights), |numbers|);
      && (s - (if modulusOnly then r.value else divider - r.value)) % divider == 0
      && (modulusOnly && s >= 0 ==> 0 <= r.value < divider)
      && (modulusOnly && s < 0 ==> -divider < r.value <= 0)
      && (!modulusOnly && s >= 0 ==> 0 < r.value <= divider)
      && (!modulusOnly && s >= 0 ==> r.value == divider - s % divider)
  {
    var w := ActualWeights(numbers, weights);
    if |numbers| > |w| then Err("numbers length must be less than or equal to weights length")
    else
      var s := WeightedSum(numbers, w, |numbers|);
      JsRemCongruent(s, divider);
      var modulus := JsRem(s, divider);
      Ok(if modulusOnly then modulus else divider - modulus)
  }

  /** Without modulusOnly the result is what completes a nonnegative sum to a multiple of the
      divider. */
  lemma WeightedModulusCompletes(numbers: seq<Digit>, weights: seq<int>, divider: int)
    requires divider > 0 && |numbers| <= |weights|
    requires WeightedSum(numbers, weights, |numbers|) >= 0
    ensures WeightedModulusDigit(numbers, Some(weights), divider, false).Ok?
    ensures (WeightedSum(numbers, weights, |numbers|)
             + WeightedModulusDigit(numbers, Some(weights), divider, false).value) % divider == 0
  {
    ModComplement(WeightedSum(numbers, weights, |numbers|), divider);
  }

  /** util.test.js: weightedModulusDigit([1,2,3], [3,2,1], 11) is 1. */
  lemma WeightedModulusDigitExample()
    ensures WeightedModulusDigit([1, 2, 3], Some([3, 2, 1]), 11, false) == Ok(1)
    ensures WeightedModulusDigit([1, 2, 3, 4], Some([3, 2, 1]), 11, false).Err?
  {
  }

  // ---------------------------------------------------------------------------------------
  // The m/n hybrid fold (ISO/IEC 7064 MOD 11,10 with m = 10, n = 11)

  /** `product` after the first k numbers. */
  function MnProduct(ds: seq<Digit>, m: int, n: int, k: nat): (p: int)
    requires m > 0 && n > 0 && k <= |ds|
    ensures k == 0 ==> p == m
    ensures k > 0 ==> 0 <= p < n
  {
    if k == 0 then m
    else
      var total := (ds[k - 1] + MnProduct(ds, m, n, k - 1)) % m;
      (2 * (if total == 0 then m else total)) % n
  }

  /** `mnModulusDigit(numbers, m, n)`: n minus the final product. */
  function MnModulusDigit(ds: seq<Digit>, m: int, n: int): (r: int)
    requires m > 0 && n > 0
    ensures |ds| > 0 ==> 1 <= r <= n
    ensures r == n - MnProduct(ds, m, n, |ds|)
  {
    n - MnProduct(ds, m, n, |ds|)
  }

  /** The loop of mnModulusDigit. */
  method ComputeMnModulusDigit(numbers: seq<Digit>, m: int, n: int) returns (r: int)
    requires m > 0 && n > 0
    ensures r == MnModulusDigit(numbers, m, n)
  {
    var product := m;
    var i := 0;
    while i < |numbers|
      invariant 0 <= i <= |numbers|
      invariant product == MnProduct(numbers, m, n, i)
    {
      var total := (numbers[i] + product) % m;
      if total == 0 {
        total := m;
      }
      product := (2 * total) % n;
      i := i + 1;
    }
    r := n - product;
  }

  /** With m = 10 and n = 11 the product never becomes 0. */
  lemma MnProduct1110Positive(ds: seq<Digit>, k: nat)
    requires k <= |ds|
    ensures 1 <= MnProduct(ds, 10, 11, k) <= 10
  {
    if k > 0 {
      var total := (ds[k - 1] + MnProduct(ds, 10, 11, k - 1)) % 10;
      var t := if total == 0 then 10 else total;
      assert MnProduct(ds, 10, 11, k) == (2 * t) % 11;
      assert 1 <= t <= 10;
    }
  }

  /** ISO/IEC 7064 MOD 11,10: the check digit `modulusOverflowMod10(mnModulusDigit(ds, 10, 11))`
      is the one digit c for which the last step of the fold, (product + c) mod 10, gives 1. */
  lemma Mod1110CheckDigit(ds: seq<Digit>)
    ensures var c := ModulusOverflowMod10(MnModulusDigit(ds, 10, 11));
      && 0 <= c <= 9
      && (MnProduct(ds, 10, 11, |ds|) + c) % 10 == 1
  {
    MnProduct1110Positive(ds, |ds|);
    var p := MnProduct(ds, 10, 11, |ds|);
    assert MnModulusDigit(ds, 10, 11) == 11 - p;
    if p == 1 {
      assert ModulusOverflowMod10(10) == 0;
    } else {
      assert ModulusOverflowMod10(11 - p) == 11 - p;
    }
  }

  /** No other digit completes the fold. */
  lemma Mod1110CheckDigitUnique(ds: seq<Digit>, c: Digit)
    requires (MnProduct(ds, 10, 11, |ds|) + c) % 10 == 1
    ensures c == ModulusOverflowMod10(MnModulusDigit(ds, 10, 11))
  {
    MnProduct1110Positive(ds, |ds|);
    var p := MnProduct(ds, 10, 11, |ds|);
    assert MnModulusDigit(ds, 10, 11) == 11 - p;
    assert p + c == 1 || p + c == 11;
    if p == 1 {
      assert ModulusOverflowMod10(10) == 0;
    } else {
      assert ModulusOverflowMod10(11 - p) == 11 - p;
    }
  }

  /** One step of the MOD 11,10 fold: digit d moves the product p to q. */
  lemma Mod1110Step(ds: seq<Digit>, k: nat, d: Digit, p: int, q: int)
    requires k < |ds| && ds[k] == d && MnProduct(ds, 10, 11, k) == p
    requires q == (2 * (if (d + p) % 10 == 0 then 10 else (d + p) % 10)) % 11
    ensures MnProduct(ds, 10, 11, k + 1) == q
  {
  }

  /** util.test.js: mnModulusDigit([1,2,3], 11, 9) is 5. */
  lemma MnModulusDigitExample()
    ensures MnModulusDigit([1, 2, 3], 11, 9) == 5
  {
  }

  // ---------------------------------------------------------------------------------------
  // The mod-10 overflow and letter ordinals

  /** `modulusOverflowMod10(modulus)`: keeps one decimal digit of a check value above 9. */
  function ModulusOverflowMod10(modulus: int): (r: int)
    ensures modulus <= 9 ==> r == modulus
    ensures modulus >= 0 ==> 0 <= r <= 9 && r % 10 == modulus % 10
  {
    if modulus > 9 then modulus % 10 else modulus
  }

  /** `letterToNumber(letter, capital)`: the ordinal of an ASCII letter counted from the upper-case
      alphabet (capital) or the lower-case one; an error unless the string is one letter. */
  function LetterToNumber(letter: string, capital: bool): (r: Result<int>)
    ensures r.Ok? <==> |letter| == 1 && (IsUpperLetter(letter[0]) || IsLowerLetter(letter[0]))
    ensures r.Ok? && capital && IsUpperLetter(letter[0]) ==> 1 <= r.value <= 26
    ensures r.Ok? && !capital && IsLowerLetter(letter[0]) ==> 1 <= r.value <= 26
    ensures r.Ok? ==> letter[0] as int == r.value + (if capital then 64 else 96)
  {
    if |letter| != 1 || !(IsUpperLetter(letter[0]) || IsLowerLetter(letter[0])) then
      Err("only allow one alphabet")
    else
      Ok(letter[0] as int - (if capital then 64 else 96))
  }

  /** The k-th capital letter has ordinal k, so letterToNumber inverts counting through A..Z. */
  lemma LetterToNumberInverse(k: int)
    requires 1 <= k <= 26
    ensures LetterToNumber([(64 + k) as char], true) == Ok(k)
    ensures LetterToNumber([(96 + k) as char], false) == Ok(k)
  {
  }

  /** util.test.js: 'C' is 3, and 'c' is 3 counted from the lower-case alphabet. */
  lemma LetterToNumberExamples()
    ensures LetterToNumber("C", true) == Ok(3)
    ensures LetterToNumber("c", false) == Ok(3)
    ensures LetterToNumber("CC", true).Err? && LetterToNumber("1", true).Err?
  {
  }

  // ---------------------------------------------------------------------------------------
  // EAN-13 style alternating sum

  /** The sum of the numbers at the first n positions whose one-based position is even
      (wantEven) or odd. */
  function ParitySum(ds: seq<Digit>, n: nat, wantEven: bool): nat
    requires n <= |ds|
  {
    if n == 0 then 0
    else ParitySum(ds, n - 1, wantEven) + (if (n % 2 == 0) == wantEven then ds[n - 1] else 0)
  }

  /** `even * 2 + odd` of ean13Digit: numbers at even one-based positions weigh 2. */
  function Ean13Total(ds: seq<Digit>): nat {
    2 * ParitySum(ds, |ds|, true) + ParitySum(ds, |ds|, false)
  }

  /** `ean13Digit(numbers)`: the digit that completes the total to a multiple of 10. */
  function Ean13Digit(ds: seq<Digit>): (r: Digit)
    ensures (Ean13Total(ds) + r) % 10 == 0
  {
    var modulus := Ean13Total(ds) % 10;
    if modulus == 0 then 0 else 10 - modulus
  }

  /** The loop of ean13Digit, accumulating the two parity sums. */
  method ComputeEan13Digit(numbers: seq<Digit>) returns (r: int)
    ensures r == Ean13Digit(numbers)
  {
    var odd: int := 0;
    var even: int := 0;
    var index := 0;
    while index < |numbers|
      invariant 0 <= index <= |numbers|
      invariant even == ParitySum(numbers, index, true)
      invariant odd == ParitySum(numbers, index, false)
    {
      if (index + 1) % 2 == 0 {
        even := even + numbers[index];
      } else {
        odd := odd + numbers[index];
      }
      index := index + 1;
    }
    var total := even * 2 + odd;
    var modulus := total % 10;
    r := if modulus == 0 then 0 else 10 - modulus;
  }

  /** util.test.js: ean13Digit([8,9,0,1,2,3,4,5,6,7,8,9]) is 4. */
  lemma Ean13DigitExample()
    ensures Ean13Digit([8, 9, 0, 1, 2, 3, 4, 5, 6, 7, 8, 9]) == 4
  {
    var ds: seq<Digit> := [8, 9, 0, 1, 2, 3, 4, 5, 6, 7, 8, 9];
    assert ParitySum(ds, 4, true) == 10;
    assert ParitySum(ds, 8, true) == 18;
    assert ParitySum(ds, 12, true) == 34;
    assert ParitySum(ds, 4, false) == 8;
    assert ParitySum(ds, 8, false) == 14;
    assert ParitySum(ds, 12, false) == 28;
  }
}
