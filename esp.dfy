/** The Spanish national identity document number (DNI): eight digits and a letter that spells
    the number modulo 23 (esp/dni.js). */
module EspDni {

  import opened Common

  /** The check letters, indexed by the remainder modulo 23. */
  const MagicLetters: string := "TRWAGMYFPDXBNJZSQVHLCKE"

  /** The table spells 23 different upper-case letters: every one except I, O and U. */
  lemma MagicLettersShape()
    ensures |MagicLetters| == 23
    ensures forall i, j :: 0 <= i < j < 23 ==> MagicLetters[i] != MagicLetters[j]
    ensures forall c :: IsUpperLetter(c) && c != 'I' && c != 'O' && c != 'U' <==> c in MagicLetters
  {
  }

  /** The check letter of a number: the index n mod 23 is always inside the table. */
  function CheckLetter(n: nat): (c: char)
    ensures IsUpperLetter(c) && c != 'I' && c != 'O' && c != 'U'
  {
    MagicLettersShape();
    MagicLetters[n % 23]
  }

  /** Two numbers share their check letter exactly when they agree modulo 23. */
  lemma CheckLetterDetermines(n: nat, m: nat)
    ensures CheckLetter(n) == CheckLetter(m) <==> n % 23 == m % 23
  {
    MagicLettersShape();
    if n % 23 < m % 23 {
      assert MagicLetters[n % 23] != MagicLetters[m % 23];
    } else if m % 23 < n % 23 {
      assert MagicLetters[m % 23] != MagicLetters[n % 23];
    }
  }

  /** The format `validate` matches: eight digits and an upper-case letter. */
  predicate Format(s: string) {
    |s| == 9 && AllDigits(s[..8]) && IsUpperLetter(s[8])
  }

  /** `validate(idNumber)`: the format holds and the letter is the check letter of the eight
      digits read as a decimal number. */
  function Validate(s: string): (ok: bool)
    ensures ok <==> Format(s) && s[8] == CheckLetter(Decimal(s[..8]))
    ensures ok ==> s[8] != 'I' && s[8] != 'O' && s[8] != 'U'
  {
    if !Format(s) then false
    else
      var index := Decimal(s[..8]) % 23;
      MagicLetters[index] == s[8]
  }

  /** For eight given digits no two letters both make a valid DNI. */
  lemma OneLetterPerNumber(digits: string, c: char, e: char)
    requires |digits| == 8 && AllDigits(digits) && IsUpperLetter(c) && IsUpperLetter(e)
    requires Validate(digits + [c]) && Validate(digits + [e])
    ensures c == e
  {
    assert (digits + [c])[..8] == digits && (digits + [e])[..8] == digits;
  }

  /** Numbers that agree modulo 23 take the same letter. */
  lemma LetterOfCongruentNumbers(s: string, t: string)
    requires Validate(s) && Format(t) && Decimal(s[..8]) % 23 == Decimal(t[..8]) % 23
    ensures Validate(t) <==> t[8] == s[8]
  {
    CheckLetterDetermines(Decimal(s[..8]), Decimal(t[..8]));
  }

  // ---------------------------------------------------------------------------------------
  // Examples from esp.test.js

  const Sample1: string := "12345678Z"
  const Sample2: string := "10469226V"
  const Wrong: string := "12345678A"
  const TooShort: string := "1234567A"

  lemma DecimalOf12345678(t: string)
    requires t == "12345678"
    ensures Decimal(t) == 12345678
  {
    assert DecimalPrefix(t, 1) == 1;
    assert DecimalPrefix(t, 2) == 12;
    assert DecimalPrefix(t, 3) == 123;
    assert DecimalPrefix(t, 4) == 1234;
    assert DecimalPrefix(t, 5) == 12345;
    assert DecimalPrefix(t, 6) == 123456;
    assert DecimalPrefix(t, 7) == 1234567;
    assert DecimalPrefix(t, 8) == 12345678;
  }

  lemma DecimalOf10469226(t: string)
    requires t == "10469226"
    ensures Decimal(t) == 10469226
  {
    assert DecimalPrefix(t, 1) == 1;
    assert DecimalPrefix(t, 2) == 10;
    assert DecimalPrefix(t, 3) == 104;
    assert DecimalPrefix(t, 4) == 1046;
    assert DecimalPrefix(t, 5) == 10469;
    assert DecimalPrefix(t, 6) == 104692;
    assert DecimalPrefix(t, 7) == 1046922;
    assert DecimalPrefix(t, 8) == 10469226;
  }

  /** 12345678 leaves 14 modulo 23, whose letter is Z. */
  lemma FirstExample()
    ensures Validate(Sample1) && !Validate(Wrong)
  {
    assert Sample1[..8] == "12345678" && Wrong[..8] == "12345678";
    DecimalOf12345678(Sample1[..8]);
    assert 12345678 % 23 == 14;
    assert MagicLetters[14] == 'Z';
  }

  /** 10469226 leaves 17 modulo 23, whose letter is V. */
  lemma SecondExample()
    ensures Validate(Sample2)
  {
    assert Sample2[..8] == "10469226";
    DecimalOf10469226(Sample2[..8]);
    assert 10469226 % 23 == 17;
    assert MagicLetters[17] == 'V';
  }

  /** Seven digits do not have the format. */
  lemma TooShortExample()
    ensures !Validate(TooShort)
  {
  }
}
