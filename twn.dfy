/** The Taiwanese national identification number: a region letter, a gender digit, seven serial
    digits and a check digit chosen so that the weighted sum is a multiple of ten
    (twn/national_id.js). */
module TwnNationalId {

  import opened Common
  import opened NationalIdUtil

  /** REGEXP: an upper-case region letter, a gender digit 1 or 2 and eight digits. */
  predicate Format(s: string) {
    |s| == 10 && IsUpperLetter(s[0]) && '1' <= s[1] <= '2' && AllDigits(s[2..])
  }

  /** weights[3..10], applied to the seven serial digits. */
  const SerialWeights: seq<int> := [7, 6, 5, 4, 3, 2, 1]

  /** `letterToNumber(regionLetter) + 9`: A is 10, B is 11, ..., Z is 35. */
  function RegionValue(letter: char): (v: int)
    requires IsUpperLetter(letter)
    ensures 10 <= v <= 35 && v == letter as int - 'A' as int + 10
  {
    LetterToNumber([letter], true).value + 9
  }

  /** `sum`: the tens digit of the region value with weight 1, its units digit with weight 9,
      the gender digit with weight 8 and the serial digits with weights 7..1. */
  function Total(s: string): int
    requires Format(s)
  {
    var rv := RegionValue(s[0]);
    (rv / 10) * 1 + (rv % 10) * 9 + DigitValue(s[1]) * 8 + WeightedSum(Digits(s[2..9]), SerialWeights, 7)
  }

  /** `expectedCheck`: 0 when the sum is a multiple of ten, else ten minus its last digit; the
      digit that brings the sum to a multiple of ten. */
  function ExpectedCheck(sum: int): (c: int)
    ensures 0 <= c <= 9 && (sum + c) % 10 == 0
  {
    ModComplement(sum, 10);
    var remainder := sum % 10;
    if remainder == 0 then 0 else 10 - remainder
  }

  /** No other digit brings the sum to a multiple of ten. */
  lemma ExpectedCheckUnique(sum: int, c: int)
    requires 0 <= c <= 9 && (sum + c) % 10 == 0
    ensures c == ExpectedCheck(sum)
  {
    var q := sum / 10;
    assert sum == 10 * q + sum % 10;
    assert (sum + c) % 10 == (sum % 10 + c) % 10;
  }

  /** What `checksum` decides. */
  predicate HasValidCheckDigit(s: string) {
    Format(s) && ExpectedCheck(Total(s)) == DigitValue(s[9])
  }

  /** A code passes iff its weighted sum plus its check digit is a multiple of ten. */
  lemma CheckDigitMeaning(s: string)
    requires Format(s)
    ensures HasValidCheckDigit(s) <==> (Total(s) + DigitValue(s[9])) % 10 == 0
  {
    if (Total(s) + DigitValue(s[9])) % 10 == 0 {
      ExpectedCheckUnique(Total(s), DigitValue(s[9]));
    }
  }

  /** `checksum(idNumber)`: the region and gender terms, then a loop over the serial digits. */
  method Checksum(idNumber: string) returns (ok: bool)
    ensures ok <==> HasValidCheckDigit(idNumber)
  {
    if !Format(idNumber) {
      return false;
    }
    var regionValue := LetterToNumber([idNumber[0]], true).value + 9;
    var serialAndCheck := Digits(idNumber[2..]);
    var sum := (regionValue / 10) * 1 + (regionValue % 10) * 9;
    sum := sum + DigitValue(idNumber[1]) * 8;
    var i := 0;
    while i < 7
      invariant 0 <= i <= 7
      invariant sum == (regionValue / 10) + (regionValue % 10) * 9 + DigitValue(idNumber[1]) * 8
                       + WeightedSum(serialAndCheck, SerialWeights, i)
    {
      sum := sum + serialAndCheck[i] * SerialWeights[i];
      i := i + 1;
    }
    WeightedSumPrefix(serialAndCheck, SerialWeights, Digits(idNumber[2..9]), SerialWeights, 7);
    var checkDigit := serialAndCheck[7];
    var remainder := sum % 10;
    var expectedCheck := if remainder == 0 then 0 else 10 - remainder;
    return expectedCheck == checkDigit;
  }

  /** `getRegionFromLetter(letter)`: the region of each letter A..Z, 'Unknown' for anything
      else. */
  function GetRegionFromLetter(letter: string): (r: string)
    ensures r != "Unknown" <==> |letter| == 1 && IsUpperLetter(letter[0])
  {
    if |letter| != 1 then "Unknown"
    else
      match letter[0]
      case 'A' => "Taipei City"
      case 'B' => "Taichung City"
      case 'C' => "Keelung City"
      case 'D' => "Tainan City"
      case 'E' => "Kaohsiung City"
      case 'F' => "New Taipei City"
      case 'G' => "Yilan County"
      case 'H' => "Taoyuan City"
      case 'I' => "Chiayi City"
      case 'J' => "Hsinchu County"
      case 'K' => "Miaoli County"
      case 'L' => "Taichung County"
      case 'M' => "Nantou County"
      case 'N' => "Changhua County"
      case 'O' => "Yunlin County"
      case 'P' => "Chiayi County"
      case 'Q' => "Tainan County"
      case 'R' => "Kaohsiung County"
      case 'S' => "Pingtung County"
      case 'T' => "Taitung County"
      case 'U' => "Hualien County"
      case 'V' => "Penghu County"
      case 'W' => "Kinmen County"
      case 'X' => "Lienchiang County"
      case 'Y' => "Yangmingshan"
      case 'Z' => "Foreigner"
      case _ => "Unknown"
  }

  /** What `parse` returns. */
  datatype TaiwanId = TaiwanId(number: string, gender: Gender, regionLetter: string, region: string,
                               genderDigit: string)

  /** `parse(idNumber)`: None unless the checksum holds; gender digit 1 is male, 2 female, and
      the region is never 'Unknown'. */
  function Parse(s: string): (r: Option<TaiwanId>)
    ensures r.Some? <==> HasValidCheckDigit(s)
    ensures r.Some? ==>
      && r.value.number == s && r.value.regionLetter == [s[0]] && r.value.genderDigit == [s[1]]
      && (r.value.gender == Male <==> s[1] == '1')
      && r.value.region != "Unknown"
  {
    if !HasValidCheckDigit(s) then None
    else
      var gender := if DigitValue(s[1]) == 1 then Male else Female;
      Some(TaiwanId(s, gender, [s[0]], GetRegionFromLetter([s[0]]), [s[1]]))
  }

  /** `validate(idNumber)`. */
  predicate Validate(s: string)
    ensures Validate(s) <==> HasValidCheckDigit(s)
  {
    Format(s) && Parse(s).Some?
  }

  lemma TotalOfA123456789()
    ensures Digits("A123456789"[2..9]) == [2, 3, 4, 5, 6, 7, 8]
  {
  }

  lemma SerialSumOf2345678()
    ensures WeightedSum([2, 3, 4, 5, 6, 7, 8], SerialWeights, 7) == 112
  {
  }

  /** twn.test.js: 'A123456789' passes (sum 121, check 9) and decodes to a man from Taipei
      City; 'A123456788' fails. */
  lemma ValidExample()
    ensures HasValidCheckDigit("A123456789")
    ensures !HasValidCheckDigit("A123456788")
    ensures Parse("A123456789").Some? && Parse("A123456789").value.gender == Male
    ensures Parse("A123456789").value.region == "Taipei City"
  {
    TotalOfA123456789();
    SerialSumOf2345678();
    assert "A123456788"[2..9] == "A123456789"[2..9];
  }

  lemma DigitsOfB287654321()
    ensures Digits("B287654321"[2..9]) == [8, 7, 6, 5, 4, 3, 2]
  {
  }

  lemma SerialSumOf8765432()
    ensures WeightedSum([8, 7, 6, 5, 4, 3, 2], SerialWeights, 7) == 168
  {
  }

  /** twn.test.js lists 'B287654321' as valid, but its sum is 194, so the check digit is 6 and
      the code as written rejects it. */
  lemma RejectedTestVector()
    ensures !HasValidCheckDigit("B287654321")
    ensures ExpectedCheck(194) == 6
  {
    DigitsOfB287654321();
    SerialSumOf8765432();
  }
}
