/** The Thai national identification number: a citizenship digit, a province and a district
    code, a seven-digit serial number and a mod-11 check digit, written with optional ' ' or '-'
    between the groups (tha/national_id.js). */
module ThaNationalId {

  import opened Common
  import opened NationalIdUtil

  /** The group lengths and the separators of REGEXP. */
  const Lens: seq<nat> := [1, 4, 5, 2, 1]
  const Seps: seq<set<char>> := [{' ', '-'}, {' ', '-'}, {' ', '-'}, {' ', '-'}]

  /** Citizenship digit, province and district (four digits), the two parts of the serial number
      and the check digit, each pair of groups joined by an optional ' ' or '-'. The digits of
      the groups, in order, or None when s does not have this layout. */
  function Groups(s: string): (r: Option<string>)
    ensures r.Some? ==> AllDigits(r.value) && |r.value| == 13
  {
    Layout(s, Lens, Seps)
  }

  /** REGEXP: the layout, with a citizenship digit of 0..8. */
  predicate Format(s: string) {
    Groups(s).Some? && Groups(s).value[0] <= '8'
  }

  /** `normalize`: drops every ' ', '-' and '/'. */
  function Normalize(s: string): (r: string)
    ensures forall i :: 0 <= i < |r| ==> r[i] !in {' ', '-', '/'}
    ensures (forall i :: 0 <= i < |s| ==> s[i] !in {' ', '-', '/'}) ==> r == s
  {
    WithoutRemoves(s, {' ', '-', '/'});
    Without(s, {' ', '-', '/'})
  }

  /** On a well-formed number, `normalize` leaves exactly the thirteen captured digits. */
  lemma NormalizeFormat(s: string)
    requires Format(s)
    ensures Normalize(s) == Groups(s).value
  {
    LayoutWithout(s, Lens, Seps, {' ', '-', '/'});
  }

  const MagicMultiplier: seq<int> := [13, 12, 11, 10, 9, 8, 7, 6, 5, 4, 3, 2]

  /** PROVINCE_LIST, in two halves: the codes of regions 1 to 4 and those of regions 5 to 9. */
  const ProvinceList: set<string> := ProvincesLow + ProvincesHigh
  const ProvincesLow: set<string> := {
    "10", "11", "12", "13", "14", "15", "16", "17", "18", "19", "20", "21", "22", "23", "24",
    "25", "26", "27", "30", "31", "32", "33", "34", "35", "36", "37", "38", "39", "40", "41",
    "42", "43", "44", "45", "46", "47", "48", "49"
  }
  const ProvincesHigh: set<string> := {
    "50", "51", "52", "53", "54", "55", "56", "57", "58", "60", "61", "62", "63", "64", "65",
    "66", "67", "70", "71", "72", "73", "74", "75", "76", "77", "80", "81", "82", "83", "84",
    "85", "86", "90", "91", "92", "93", "94", "95", "96"
  }

  /** DISTRICT_MAX_VALUE: the highest district code of each province; None where the table has
      no entry (and `val <= undefined` is false). */
  function DistrictMaxValue(province: string): Option<int> {
    match province
    case "10" => Some(50)
    case "11" => Some(6)
    case "12" => Some(6)
    case "13" => Some(7)
    case "14" => Some(46)
    case "15" => Some(7)
    case "16" => Some(11)
    case "17" => Some(9)
    case "18" => Some(8)
    case "19" => Some(12)
    case "20" => Some(11)
    case "21" => Some(8)
    case "22" => Some(10)
    case "23" => Some(7)
    case "24" => Some(11)
    case "25" => Some(9)
    case "26" => Some(4)
    case "27" => Some(9)
    case "30" => Some(32)
    case "31" => Some(23)
    case "32" => Some(17)
    case "33" => Some(22)
    case "34" => Some(25)
    case "35" => Some(9)
    case "36" => Some(16)
    case "37" => Some(6)
    case "38" => Some(8)
    case "39" => Some(6)
    case "40" => Some(26)
    case "41" => Some(25)
    case "42" => Some(14)
    case "43" => Some(9)
    case "44" => Some(13)
    case "45" => Some(20)
    case "46" => Some(18)
    case "47" => Some(18)
    case "48" => Some(12)
    case "49" => Some(7)
    case "50" => Some(25)
    case "51" => Some(8)
    case "52" => Some(12)
    case "53" => Some(9)
    case "54" => Some(16)
    case "55" => Some(15)
    case "56" => Some(9)
    case "57" => Some(18)
    case "58" => Some(7)
    case "60" => Some(15)
    case "61" => Some(8)
    case "62" => Some(11)
    case "63" => Some(9)
    case "64" => Some(9)
    case "65" => Some(22)
    case "66" => Some(13)
    case "67" => Some(13)
    case "70" => Some(10)
    case "71" => Some(13)
    case "72" => Some(10)
    case "73" => Some(7)
    case "74" => Some(3)
    case "75" => Some(3)
    case "76" => Some(7)
    case "77" => Some(8)
    case "80" => Some(23)
    case "81" => Some(8)
    case "82" => Some(8)
    case "83" => Some(3)
    case "84" => Some(19)
    case "85" => Some(4)
    case "86" => Some(8)
    case "90" => Some(16)
    case "91" => Some(7)
    case "92" => Some(10)
    case "93" => Some(11)
    case "94" => Some(11)
    case "95" => Some(8)
    case "96" => Some(13)
    case _ => None
  }

  /** District codes allowed beyond a province's maximum. */
  const DistinctSpecialCase: map<string, seq<int>> := map["44" := [95]]

  /** The check digit the scheme assigns to twelve digits: 11 minus the weighted sum modulo 11,
      keeping the last decimal digit. */
  function ReferenceCheckDigit(ds: seq<Digit>): (c: int)
    requires |ds| == 12
    ensures 0 <= c <= 9
  {
    WeightedSumNonnegative(ds, MagicMultiplier, 12);
    (11 - WeightedSum(ds, MagicMultiplier, 12) % 11) % 10
  }

  /** `checksum(idNumber)`: the format holds and the last digit is what `weightedModulusDigit`
      with MAGIC_MULTIPLIER and divider 11, passed through `modulusOverflowMod10`, gives for the
      first twelve; it is the scheme's check digit. */
  function Checksum(s: string): (ok: bool)
    ensures ok <==>
      Format(s) && Digits(Groups(s).value)[12] == ReferenceCheckDigit(Digits(Groups(s).value)[..12])
  {
    if !Format(s) then false
    else
      var numbers := Digits(Groups(s).value);
      var first := numbers[..12];
      var wmd := WeightedModulusDigit(first, Some(MagicMultiplier), 11, false);
      MagicModulusDigit(first);
      ModulusOverflowMod10(wmd.value) == numbers[12]
  }

  /** `weightedModulusDigit` with MAGIC_MULTIPLIER and divider 11, reduced by
      `modulusOverflowMod10`, is the reference check digit. */
  lemma MagicModulusDigit(first: seq<Digit>)
    requires |first| == 12
    ensures WeightedModulusDigit(first, Some(MagicMultiplier), 11, false).Ok?
    ensures ModulusOverflowMod10(WeightedModulusDigit(first, Some(MagicMultiplier), 11, false).value)
      == ReferenceCheckDigit(first)
  {
    WeightedSumNonnegative(first, MagicMultiplier, 12);
    var m := WeightedSum(first, MagicMultiplier, 12) % 11;
    assert WeightedModulusDigit(first, Some(MagicMultiplier), 11, false).value == 11 - m;
  }

  /** `checkProvinceCode(code)`: membership in PROVINCE_LIST, which holds two-digit codes and
      exactly the provinces of DISTRICT_MAX_VALUE. */
  predicate CheckProvinceCode(code: string)
    ensures CheckProvinceCode(code) ==> |code| == 2 && AllDigits(code)
    ensures CheckProvinceCode(code) <==> DistrictMaxValue(code).Some?
  {
    ProvinceListMatchesTable(code);
    code in ProvinceList
  }

  /** PROVINCE_LIST and the provinces of DISTRICT_MAX_VALUE agree, code by code. */
  lemma {:induction false} ProvinceListMatchesTable(p: string)
    ensures p in ProvinceList ==> |p| == 2 && AllDigits(p)
    ensures p in ProvinceList <==> DistrictMaxValue(p).Some?
  {
    match p
    case "10" => assert p in ProvincesLow;
    case "11" => assert p in ProvincesLow;
    case "12" => assert p in ProvincesLow;
    case "13" => assert p in ProvincesLow;
    case "14" => assert p in ProvincesLow;
    case "15" => assert p in ProvincesLow;
    case "16" => assert p in ProvincesLow;
    case "17" => assert p in ProvincesLow;
    case "18" => assert p in ProvincesLow;
    case "19" => assert p in ProvincesLow;
    case "20" => assert p in ProvincesLow;
    case "21" => assert p in ProvincesLow;
    case "22" => assert p in ProvincesLow;
    case "23" => assert p in ProvincesLow;
    case "24" => assert p in ProvincesLow;
    case "25" => assert p in ProvincesLow;
    case "26" => assert p in ProvincesLow;
    case "27" => assert p in ProvincesLow;
    case "30" => assert p in ProvincesLow;
    case "31" => assert p in ProvincesLow;
    case "32" => assert p in ProvincesLow;
    case "33" => assert p in ProvincesLow;
    case "34" => assert p in ProvincesLow;
    case "35" => assert p in ProvincesLow;
    case "36" => assert p in ProvincesLow;
    case "37" => assert p in ProvincesLow;
    case "38" => assert p in ProvincesLow;
    case "39" => assert p in ProvincesLow;
    case "40" => assert p in ProvincesLow;
    case "41" => assert p in ProvincesLow;
    case "42" => assert p in ProvincesLow;
    case "43" => assert p in ProvincesLow;
    case "44" => assert p in ProvincesLow;
    case "45" => assert p in ProvincesLow;
    case "46" => assert p in ProvincesLow;
    case "47" => assert p in ProvincesLow;
    case "48" => assert p in ProvincesLow;
    case "49" => assert p in ProvincesLow;
    case "50" => assert p in ProvincesHigh;
    case "51" => assert p in ProvincesHigh;
    case "52" => assert p in ProvincesHigh;
    case "53" => assert p in ProvincesHigh;
    case "54" => assert p in ProvincesHigh;
    case "55" => assert p in ProvincesHigh;
    case "56" => assert p in ProvincesHigh;
    case "57" => assert p in ProvincesHigh;
    case "58" => assert p in ProvincesHigh;
    case "60" => assert p in ProvincesHigh;
    case "61" => assert p in ProvincesHigh;
    case "62" => assert p in ProvincesHigh;
    case "63" => assert p in ProvincesHigh;
    case "64" => assert p in ProvincesHigh;
    case "65" => assert p in ProvincesHigh;
    case "66" => assert p in ProvincesHigh;
    case "67" => assert p in ProvincesHigh;
    case "70" => assert p in ProvincesHigh;
    case "71" => assert p in ProvincesHigh;
    case "72" => assert p in ProvincesHigh;
    case "73" => assert p in ProvincesHigh;
    case "74" => assert p in ProvincesHigh;
    case "75" => assert p in ProvincesHigh;
    case "76" => assert p in ProvincesHigh;
    case "77" => assert p in ProvincesHigh;
    case "80" => assert p in ProvincesHigh;
    case "81" => assert p in ProvincesHigh;
    case "82" => assert p in ProvincesHigh;
    case "83" => assert p in ProvincesHigh;
    case "84" => assert p in ProvincesHigh;
    case "85" => assert p in ProvincesHigh;
    case "86" => assert p in ProvincesHigh;
    case "90" => assert p in ProvincesHigh;
    case "91" => assert p in ProvincesHigh;
    case "92" => assert p in ProvincesHigh;
    case "93" => assert p in ProvincesHigh;
    case "94" => assert p in ProvincesHigh;
    case "95" => assert p in ProvincesHigh;
    case "96" => assert p in ProvincesHigh;
    case _ =>
      assert p !in ProvincesLow;
      assert p !in ProvincesHigh;
  }

  /** `checkDistrictCode(province, district)`: '99' is always accepted; otherwise the district
      must not exceed the province's maximum, or be one of its special cases. A province without
      a maximum has no ordinary districts. */
  function CheckDistrictCode(province: string, district: string): (ok: bool)
    requires AllDigits(district)
    ensures district == "99" ==> ok
    ensures district != "99" ==>
      (ok <==> (DistrictMaxValue(province).Some? && Decimal(district) <= DistrictMaxValue(province).value)
               || (province == "44" && Decimal(district) == 95))
  {
    if district == "99" then true
    else
      var val := Decimal(district);
      if DistrictMaxValue(province).Some? && val <= DistrictMaxValue(province).value then true
      else if province !in DistinctSpecialCase then false
      else val in DistinctSpecialCase[province]
  }

  /** What `parse` returns. */
  datatype ThaiNationalId = ThaiNationalId(citizenship: int, provinceCode: string,
                                           districtCode: string, sn: string, checksum: int)

  /** `parse(idNumber)`: the decoded fields when the format, the province, the district and the
      check digit are all valid; None otherwise. */
  function Parse(s: string): (r: Option<ThaiNationalId>)
    ensures r.Some? <==>
      Format(s) && CheckProvinceCode(Groups(s).value[1..3])
      && CheckDistrictCode(Groups(s).value[1..3], Groups(s).value[3..5]) && Checksum(s)
    ensures r.Some? ==>
      var d := Groups(s).value;
      && r.value.citizenship == DigitValue(d[0])
      && r.value.provinceCode + r.value.districtCode + r.value.sn == d[1..12]
      && |r.value.provinceCode| == 2 && |r.value.districtCode| == 2
      && r.value.checksum == DigitValue(d[12])
  {
    if !Format(s) then None
    else
      var d := Groups(s).value;
      var province := d[1..3];
      var district := d[3..5];
      if !CheckProvinceCode(province) then None
      else if !CheckDistrictCode(province, district) then None
      else if !Checksum(s) then None
      else
        assert d[1..3] + d[3..5] + d[5..12] == d[1..12];
        Some(ThaiNationalId(DigitValue(d[0]), province, district, d[5..12], DigitValue(d[12])))
  }

  /** `validate(idNumber)`. */
  predicate Validate(s: string)
    ensures Validate(s) <==>
      Format(s) && CheckProvinceCode(Groups(s).value[1..3])
      && CheckDistrictCode(Groups(s).value[1..3], Groups(s).value[3..5]) && Checksum(s)
  {
    Format(s) && Parse(s).Some?
  }

  /** Changing the check digit of a number that passes the checksum makes it fail. */
  lemma ChecksumDetectsCheckDigitChange(s: string, t: string)
    requires Checksum(s) && Format(t)
    requires Groups(t).value[..12] == Groups(s).value[..12]
    requires Groups(t).value[12] != Groups(s).value[12]
    ensures !Checksum(t)
  {
    var ds, dt := Digits(Groups(s).value), Digits(Groups(t).value);
    assert ds[..12] == dt[..12];
    assert DigitChar(ds[12]) == Groups(s).value[12];
    assert DigitChar(dt[12]) == Groups(t).value[12];
  }

  /** Thirteen bare digits have the layout, and are their own digit groups. */
  lemma GroupsUndelimited(s: string)
    requires AllDigits(s) && |s| == 13
    ensures Groups(s) == Some(s)
  {
    LayoutAllDigits(s, Lens, Seps);
  }

  /** A number written as the five groups joined by one separator each. */
  lemma GroupsSeparated(s: string, g: string)
    requires |s| == 17 && |g| == 13 && AllDigits(g)
    requires s[0..1] == g[0..1] && s[2..6] == g[1..5] && s[7..12] == g[5..10]
    requires s[13..15] == g[10..12] && s[16..17] == g[12..13]
    requires s[1] in {' ', '-'} && s[6] in {' ', '-'} && s[12] in {' ', '-'} && s[15] in {' ', '-'}
    ensures Groups(s) == Some(g)
  {
    assert AllDigits(s[16..]) && s[16..] == g[12..];
    LayoutFromLast(s, 16, Lens, Seps, 4);
    assert AllDigits(s[13..15]);
    LayoutFromSeparated(s, 13, Lens, Seps, 3, g[12..]);
    assert g[10..12] + g[12..] == g[10..];
    assert AllDigits(s[7..12]);
    LayoutFromSeparated(s, 7, Lens, Seps, 2, g[10..]);
    assert g[5..10] + g[10..] == g[5..];
    assert AllDigits(s[2..6]);
    LayoutFromSeparated(s, 2, Lens, Seps, 1, g[5..]);
    assert g[1..5] + g[5..] == g[1..];
    assert AllDigits(s[0..1]);
    LayoutFromSeparated(s, 0, Lens, Seps, 0, g[1..]);
    assert g[0..1] + g[1..] == g;
  }

  lemma GroupsDashed()
    ensures Groups("3-8013-00141-07-4").Some? && Groups("3-8013-00141-07-4").value == "3801300141074"
  {
    GroupsSeparated("3-8013-00141-07-4", "3801300141074");
  }

  lemma GroupsSpaced()
    ensures Groups("3 4117 00830 33 4").Some? && Groups("3 4117 00830 33 4").value == "3411700830334"
  {
    GroupsSeparated("3 4117 00830 33 4", "3411700830334");
  }

  /** Checksum of a number through its digit groups g and their values ds. */
  lemma ChecksumByDigits(s: string, g: string, ds: seq<Digit>, first: seq<Digit>)
    requires Groups(s) == Some(g) && AllDigits(g) && Digits(g) == ds && |ds| == 13
    requires ds[..12] == first
    ensures Checksum(s) <==> g[0] <= '8' && ds[12] == ReferenceCheckDigit(first)
  {
  }

  lemma SumOf380130014107()
    ensures WeightedSum([3, 8, 0, 1, 3, 0, 0, 1, 4, 1, 0, 7], MagicMultiplier, 12) == 216
  {
    assert WeightedSum([3, 8, 0, 1, 3, 0, 0, 1, 4, 1, 0, 7], MagicMultiplier, 4) == 145;
    assert WeightedSum([3, 8, 0, 1, 3, 0, 0, 1, 4, 1, 0, 7], MagicMultiplier, 8) == 178;
  }

  lemma DigitsOf3801300141074()
    ensures Digits("3801300141074") == [3, 8, 0, 1, 3, 0, 0, 1, 4, 1, 0, 7, 4]
    ensures [3, 8, 0, 1, 3, 0, 0, 1, 4, 1, 0, 7, 4][..12] == [3, 8, 0, 1, 3, 0, 0, 1, 4, 1, 0, 7]
  {
  }

  /** tha.test.js: a number written with dashes and without separators passes. */
  lemma ValidExamples()
    ensures Checksum("3-8013-00141-07-4")
    ensures Checksum("3801300141074")
  {
    GroupsDashed();
    GroupsUndelimited("3801300141074");
    DigitsOf3801300141074();
    SumOf380130014107();
    ChecksumByDigits("3-8013-00141-07-4", "3801300141074", [3, 8, 0, 1, 3, 0, 0, 1, 4, 1, 0, 7, 4],
                     [3, 8, 0, 1, 3, 0, 0, 1, 4, 1, 0, 7]);
    ChecksumByDigits("3801300141074", "3801300141074", [3, 8, 0, 1, 3, 0, 0, 1, 4, 1, 0, 7, 4],
                     [3, 8, 0, 1, 3, 0, 0, 1, 4, 1, 0, 7]);
  }

  lemma DigitsOf3801300141071()
    ensures Digits("3801300141071") == [3, 8, 0, 1, 3, 0, 0, 1, 4, 1, 0, 7, 1]
    ensures [3, 8, 0, 1, 3, 0, 0, 1, 4, 1, 0, 7, 1][..12] == [3, 8, 0, 1, 3, 0, 0, 1, 4, 1, 0, 7]
  {
  }

  /** tha.test.js: a missing digit breaks the format. */
  lemma MissingDigitRejected()
    ensures !Format("3 8010141 07 4")
  {
    assert !IsDigit("3 8010141 07 4"[6..11][3]);
  }

  /** tha.test.js: a '/' separator breaks the format. */
  lemma SlashRejected()
    ensures !Format("3-8013/00141-07-4")
  {
  }

  /** tha.test.js: a wrong check digit fails the checksum. */
  lemma WrongCheckDigitRejected()
    ensures !Checksum("3801300141071")
  {
    GroupsUndelimited("3801300141071");
    DigitsOf3801300141071();
    SumOf380130014107();
    ChecksumByDigits("3801300141071", "3801300141071", [3, 8, 0, 1, 3, 0, 0, 1, 4, 1, 0, 7, 1],
                     [3, 8, 0, 1, 3, 0, 0, 1, 4, 1, 0, 7]);
  }

  lemma SumOf341170083033()
    ensures WeightedSum([3, 4, 1, 1, 7, 0, 0, 8, 3, 0, 3, 3], MagicMultiplier, 12) == 249
  {
    assert WeightedSum([3, 4, 1, 1, 7, 0, 0, 8, 3, 0, 3, 3], MagicMultiplier, 4) == 108;
    assert WeightedSum([3, 4, 1, 1, 7, 0, 0, 8, 3, 0, 3, 3], MagicMultiplier, 8) == 219;
  }

  lemma DigitsOf3411700830334()
    ensures Digits("3411700830334") == [3, 4, 1, 1, 7, 0, 0, 8, 3, 0, 3, 3, 4]
    ensures [3, 4, 1, 1, 7, 0, 0, 8, 3, 0, 3, 3, 4][..12] == [3, 4, 1, 1, 7, 0, 0, 8, 3, 0, 3, 3]
  {
  }

  lemma FieldsOf3411700830334()
    ensures "3411700830334"[1..3] == "41" && "3411700830334"[3..5] == "17"
    ensures "3411700830334"[5..12] == "0083033"
    ensures Decimal("17") == 17
  {
    assert DecimalPrefix("17", 2) == 17;
  }

  /** '3 4117 00830 33 4' has the layout and its check digit 4 passes. */
  lemma ChecksumOfSpacedSample()
    ensures Groups("3 4117 00830 33 4") == Some("3411700830334")
    ensures Checksum("3 4117 00830 33 4")
  {
    GroupsSpaced();
    DigitsOf3411700830334();
    SumOf341170083033();
    ChecksumByDigits("3 4117 00830 33 4", "3411700830334", [3, 4, 1, 1, 7, 0, 0, 8, 3, 0, 3, 3, 4],
                     [3, 4, 1, 1, 7, 0, 0, 8, 3, 0, 3, 3]);
  }

  /** Province 41 exists and district 17 is within its range. */
  lemma CodesOfSpacedSample()
    ensures CheckProvinceCode("41") && CheckDistrictCode("41", "17")
  {
    ProvinceOfSpacedSample();
    DistrictOfSpacedSample();
  }

  lemma ProvinceOfSpacedSample()
    ensures CheckProvinceCode("41")
  {
    assert "41" in ProvincesLow;
  }

  lemma DistrictOfSpacedSample()
    ensures CheckDistrictCode("41", "17")
  {
    FieldsOf3411700830334();
    assert DistrictMaxValue("41") == Some(25);
  }

  /** tha.test.js: '3 4117 00830 33 4' decodes to citizenship 3, province 41, district 17,
      serial number 0083033 and check digit 4. */
  lemma ParseExample()
    ensures Parse("3 4117 00830 33 4").Some?
    ensures Parse("3 4117 00830 33 4").value.citizenship == 3
    ensures Parse("3 4117 00830 33 4").value.provinceCode == "41"
    ensures Parse("3 4117 00830 33 4").value.districtCode == "17"
    ensures Parse("3 4117 00830 33 4").value.sn == "0083033"
    ensures Parse("3 4117 00830 33 4").value.checksum == 4
  {
    ChecksumOfSpacedSample();
    CodesOfSpacedSample();
    FieldsOf3411700830334();
    assert DigitValue("3411700830334"[0]) == 3 && DigitValue("3411700830334"[12]) == 4;
  }
}
