# National ID numbers: a verified model of the checksum and decode layer

The national-id-numbers library validates and decodes the national identification numbers of many
countries. Each country's class has a format regular expression, a `checksum` that recomputes the
number's check digit or letter, a `parse` that rebuilds the holder's birth date, century, gender,
region or citizenship from marker digits and tables, and a `validate` that combines the two. A
shared module (`util.js`) supplies the check-digit primitives: the Luhn digit, the Verhoeff check,
the weighted-modulus digit, the ISO 7064 MOD 11,10 hybrid (`mnModulusDigit`), the mod-10
overflow, the letter-to-number mapper and an EAN-13 style digit.

This project models that layer in Dafny for util.js and twenty-nine country files, one module
per source file:

| file | module | source |
|---|---|---|
| common.dfy | Common | shared helpers: `Option`/`Result`, `Gender`, digit strings, decimal values, upper-casing, `replace`, separator layouts |
| calendar.dfy | Calendar | the Gregorian calendar as JavaScript's `Date` sees it in UTC |
| util.dfy | NationalIdUtil | src/nationalid/util.js |
| tha.dfy, est.dfy, twn.dfy, mex.dfy, kor.dfy, lva.dfy, cz.dfy, sk.dfy, hu.dfy, sgp.dfy, chn.dfy, deu.dfy, rus.dfy, nzl.dfy, br.dfy, egy.dfy, lka.dfy, lka_old.dfy, ita.dfy, fra.dfy, chl.dfy, hrv.dfy, tur.dfy, irn.dfy, ca.dfy, irl.dfy, esp.dfy, lux.dfy, gbr.dfy | one module per country | src/nationalid/<country>/<file>.js |

How the source is rendered:

- **Formats.** Each format regular expression is a `Format` predicate: the length, the character
  classes and the optional separators. Where the source captures groups, a `Groups` or `Match`
  function returns the captured digits. Operations check the format themselves and return
  `None` or `false` on a mismatch, as the source returns `null` or `false`.
- **Loops.** A `checksum` that accumulates a sum in a loop is a `method` with a `while` loop and
  its invariants. It is proved equal to a specification predicate, and the predicate's meaning
  is proved in lemmas. Typical meanings: the check digit is the one digit completing the weighted
  sum to a multiple of the modulus, or a passing number stops passing when only its check digit
  changes.
- **Pure code.** `parse` bodies and table lookups are functions. Each `parse` has an
  if-and-only-if contract that says when it returns a record, and a contract for the record's
  fields.
- **Examples.** The library's test vectors are lemmas about concrete inputs. Where a test vector
  disagrees with the code, the lemma states what the code does with it.

## Model

| member | source | states |
|---|---|---|
| NationalIdUtil.LuhnTerm | src/nationalid/util.js:11-18 | even positions count the digit unchanged, odd positions count the digit doubled with its two decimal digits added (2v-9 above 4) |
| NationalIdUtil.LuhnDigit | src/nationalid/util.js:8-21 | `luhnDigit` is the digit that brings the Luhn total of the (optionally zero-prefixed) digits to a multiple of 10 |
| NationalIdUtil.LuhnDigitUnique | src/nationalid/util.js:8-21 | no other digit completes the Luhn total |
| NationalIdUtil.ComputeLuhnDigit | src/nationalid/util.js:8-21 | the accumulating loop returns the Luhn digit |
| NationalIdUtil.LuhnStartByTwo | src/nationalid/util.js:10 | starting the multipliers at two (a leading 0) is the same as counting from the second position |
| NationalIdUtil.LuhnAppend | src/nationalid/util.js:8-21 | for an even-length body, the body plus one digit has Luhn digit 0 exactly when that digit is the body's Luhn digit |
| NationalIdUtil.LuhnDigitExamples | src/nationalid/util.js:8-21 | `luhnDigit([1..8])` is 2, and 6 with the multipliers starting at two |
| NationalIdUtil.VerhoeffStateNext | src/nationalid/util.js:48-56 | each step of the reversed walk applies the P table row `idx % 8` and then the D table |
| NationalIdUtil.Reversed | src/nationalid/util.js:49 | the reversed digits, position by position |
| NationalIdUtil.VerhoeffCheck | src/nationalid/util.js:48-56 | the loop over the reversed digits accepts exactly when the final Verhoeff state is 0 |
| NationalIdUtil.VerhoeffRejects12345 | src/nationalid/util.js:48-56 | '12345' is rejected |
| NationalIdUtil.VerhoeffRejectsZeros | src/nationalid/util.js:48-56 | '0000' is rejected |
| NationalIdUtil.VerhoeffAccepts2363 | src/nationalid/util.js:48-56 | '2363' is accepted |
| NationalIdUtil.ActualWeights | src/nationalid/util.js:59 | missing weights default to one weight 1 per number |
| NationalIdUtil.WeightedModulusDigit | src/nationalid/util.js:58-65 | an error exactly when there are more numbers than weights; otherwise the weighted sum modulo the divider, or the divider minus it |
| NationalIdUtil.WeightedModulusCompletes | src/nationalid/util.js:58-65 | for a nonnegative sum, the sum plus `divider - modulus` is a multiple of the divider |
| NationalIdUtil.WeightedModulusDigitExample | src/nationalid/util.js:58-65 | [1,2,3] with weights [3,2,1] and divider 11 gives 1; four numbers against three weights is an error |
| NationalIdUtil.MnProduct | src/nationalid/util.js:67-75 | the running product starts at m and afterwards stays in 0..n-1 |
| NationalIdUtil.MnModulusDigit | src/nationalid/util.js:67-81 | in 1..n for a nonempty input; its meaning is in Mod1110CheckDigit and Mod1110CheckDigitUnique: for m = 10, n = 11 it yields the one digit that makes (product + digit) mod 10 equal 1 |
| NationalIdUtil.ComputeMnModulusDigit | src/nationalid/util.js:67-77 | the loop returns n minus the product of the recurrence |
| NationalIdUtil.MnProduct1110Positive | src/nationalid/util.js:67-75 | with m = 10 and n = 11 the product is never 0 (it stays in 1..10) |
| NationalIdUtil.Mod1110CheckDigit | src/nationalid/util.js:67-81 | the ISO 7064 MOD 11,10 digit `modulusOverflowMod10(mnModulusDigit(ds, 10, 11))` is the digit that makes (product + digit) mod 10 equal 1 |
| NationalIdUtil.Mod1110CheckDigitUnique | src/nationalid/util.js:67-81 | no other digit satisfies that identity |
| NationalIdUtil.Mod1110Step | src/nationalid/util.js:69-75 | one step of the recurrence, for evaluating it digit by digit |
| NationalIdUtil.MnModulusDigitExample | src/nationalid/util.js:67-77 | `mnModulusDigit([1,2,3], 11, 9)` is 5 |
| NationalIdUtil.ModulusOverflowMod10 | src/nationalid/util.js:79-81 | values up to 9 are kept, larger ones reduced to their last decimal digit |
| NationalIdUtil.LetterToNumber | src/nationalid/util.js:83-89 | an error unless the input is exactly one ASCII letter; otherwise the char code minus 64 (capital) or 96, which is the alphabet position 1..26 for a letter of the chosen case |
| NationalIdUtil.LetterToNumberInverse | src/nationalid/util.js:83-89 | the k-th letter of either case maps back to k |
| NationalIdUtil.LetterToNumberExamples | src/nationalid/util.js:83-89 | 'C' and 'c' give 3; 'CC' and '1' are errors |
| NationalIdUtil.Ean13Digit | src/nationalid/util.js:91-104 | the digit that makes odd-position digits plus twice the even-position digits a multiple of 10 |
| NationalIdUtil.ComputeEan13Digit | src/nationalid/util.js:91-104 | the two-accumulator loop returns that digit |
| NationalIdUtil.Ean13DigitExample | src/nationalid/util.js:91-104 | '890123456789' gives 4 |
| ThaNationalId.Groups | src/nationalid/tha/national_id.js:19 | a match of REGEXP yields its thirteen digits |
| ThaNationalId.Normalize | src/nationalid/tha/national_id.js:15-17 | the result holds no space, dash or slash, and an input without them comes back unchanged |
| ThaNationalId.NormalizeFormat | src/nationalid/tha/national_id.js:15-17 | on a well-formed number, removing ' ', '-' and '/' gives the same thirteen digits as the groups of the match |
| ThaNationalId.ReferenceCheckDigit | src/nationalid/tha/national_id.js:23 | the scheme's check digit, (11 - weighted sum mod 11) mod 10, is a digit |
| ThaNationalId.Checksum | src/nationalid/tha/national_id.js:76-85 | true exactly when the format holds and the last digit is the scheme's check digit of the first twelve |
| ThaNationalId.CheckProvinceCode | src/nationalid/tha/national_id.js:87-89 | every code it accepts is two digits, and it accepts exactly the provinces that DISTRICT_MAX_VALUE has a maximum for |
| ThaNationalId.ProvinceListMatchesTable | src/nationalid/tha/national_id.js:20-21 | PROVINCE_LIST and the keys of DISTRICT_MAX_VALUE are the same 77 two-digit codes, code by code |
| ThaNationalId.CheckDistrictCode | src/nationalid/tha/national_id.js:91-103 | '99' is always accepted; otherwise accepted exactly when the district is at most the province's maximum or is province 44's special district 95 |
| ThaNationalId.Parse | src/nationalid/tha/national_id.js:49-74 | a record exactly when the format, the province, the district and the checksum hold; its fields are the citizenship digit, the province, district and serial groups and the check digit |
| ThaNationalId.Validate | src/nationalid/tha/national_id.js:42-74 | valid exactly when the format holds, the province code is listed, the district code is allowed for it and the checksum passes |
| ThaNationalId.ChecksumDetectsCheckDigitChange | src/nationalid/tha/national_id.js:76-85 | changing only the check digit of a number that passes makes it fail |
| ThaNationalId.GroupsUndelimited | src/nationalid/tha/national_id.js:19 | thirteen bare digits are their own groups |
| ThaNationalId.GroupsDashed | src/nationalid/tha/national_id.js:19 | '3-8013-00141-07-4' matches, with digits '3801300141074' |
| ThaNationalId.GroupsSpaced | src/nationalid/tha/national_id.js:19 | '3 4117 00830 33 4' matches, with digits '3411700830334' |
| ThaNationalId.ValidExamples | src/nationalid/tha/national_id.js:76-85 | '3-8013-00141-07-4' and '3801300141074' pass the checksum (weighted sum 216) |
| ThaNationalId.MissingDigitRejected | src/nationalid/tha/national_id.js:19 | '3 8010141 07 4' does not match |
| ThaNationalId.SlashRejected | src/nationalid/tha/national_id.js:19 | '3-8013/00141-07-4' does not match (a '/' is no separator of the pattern) |
| ThaNationalId.WrongCheckDigitRejected | src/nationalid/tha/national_id.js:76-85 | '3801300141071' fails the checksum |
| ThaNationalId.ParseExample | src/nationalid/tha/national_id.js:49-74 | '3 4117 00830 33 4' parses to citizenship 3, province '41', district '17', serial '0083033', checksum 4 |
| EstIsikukood.Checksum | src/nationalid/est/isikukood.js:69-105 | the two weighted passes accept exactly when the format holds and the last digit equals the first-pass remainder mod 11 below 10, else the second-pass remainder below 10, else 0 |
| EstIsikukood.CheckDigit | src/nationalid/est/isikukood.js:82-104 | the check digit is congruent mod 11 to the first weighted sum when that leaves a remainder below 10, else to the second when that does, else it is 0 |
| EstIsikukood.CheckDigitCompletes | src/nationalid/est/isikukood.js:69-105 | exactly one final digit completes ten well-formed leading digits to a code that passes |
| EstIsikukood.Century | src/nationalid/est/isikukood.js:107-124 | a century exactly for the digits 1..8: 1800, 1900, 2000, 2100 two digits each |
| EstIsikukood.GenderOf | src/nationalid/est/isikukood.js:126-128 | for the century digits 1..8 the gender is male exactly for the odd digits 1, 3, 5 and 7 |
| EstIsikukood.CenturyDigit | src/nationalid/est/isikukood.js:107-128 | the encoding of a century 1800..2100 and a gender is a digit 1..8 that `getCentury` and `getGender` decode back to that century and gender |
| EstIsikukood.CenturyDigitRoundTrip | src/nationalid/est/isikukood.js:107-128 | century and gender determine the century digit and are recovered from it (odd male, even female) |
| EstIsikukood.Parse | src/nationalid/est/isikukood.js:27-67 | a record exactly when the checksum holds, the month is 1..12 and the day 1..31; the year is the century plus yy (1800..2199), the gender follows the digit's parity |
| EstIsikukood.Validate | src/nationalid/est/isikukood.js:20-67 | valid exactly when the format and the check digit hold, the month field is 1..12 and the day field 1..31 |
| EstIsikukood.ParseBirthDate | src/nationalid/est/isikukood.js:57 | the birth date text 'yyyy-mm-dd' reads back as the year, month and day of the record |
| EstIsikukood.CheckDigitOf3900101000 | src/nationalid/est/isikukood.js:69-105 | '39001010000' passes (first-pass remainder 0) and the test file's valid '39001010002' does not |
| EstIsikukood.SecondPassExample | src/nationalid/est/isikukood.js:92-101 | '39001010238' passes through the second pass (first remainder 10, second 8) |
| EstIsikukood.ThirdStageExample | src/nationalid/est/isikukood.js:103-104 | '39001010590' passes through the final rule (both remainders 10, check digit 0) |
| EstIsikukood.ParseExample | src/nationalid/est/isikukood.js:27-67 | '39001010000' is a man born 1990-01-01 |
| TwnNationalId.RegionValue | src/nationalid/twn/national_id.js:64 | the region letter's value is its alphabet position plus 9 (A = 10 .. Z = 35) |
| TwnNationalId.ExpectedCheck | src/nationalid/twn/national_id.js:75-76 | the expected check digit completes the weighted sum to a multiple of 10 |
| TwnNationalId.ExpectedCheckUnique | src/nationalid/twn/national_id.js:75-76 | no other digit completes the sum |
| TwnNationalId.CheckDigitMeaning | src/nationalid/twn/national_id.js:55-79 | the check passes exactly when the weighted sum plus the last digit is a multiple of 10 |
| TwnNationalId.Checksum | src/nationalid/twn/national_id.js:55-79 | the accumulating loop accepts exactly the well-formed numbers whose last digit is the expected check digit |
| TwnNationalId.GetRegionFromLetter | src/nationalid/twn/national_id.js:81-94 | a region other than 'Unknown' exactly for a single letter A..Z |
| TwnNationalId.Parse | src/nationalid/twn/national_id.js:27-53 | a record exactly when the checksum holds; gender digit 1 is male, any other female; the region is never 'Unknown' |
| TwnNationalId.Validate | src/nationalid/twn/national_id.js:20-53 | valid exactly when the format holds and the last digit is the check digit the letter and the serial weights ask for |
| TwnNationalId.ValidExample | src/nationalid/twn/national_id.js:27-79 | 'A123456789' passes and parses to a man from Taipei City; 'A123456788' fails |
| TwnNationalId.RejectedTestVector | src/nationalid/twn/national_id.js:55-79 | the test file's valid 'B287654321' fails: its sum 194 needs check digit 6 |
| MexCurp.CharValue | src/nationalid/mex/curp.js:79-89 | digits count their value, A..Z count 10..35, anything else 0 |
| MexCurp.CharValueInjective | src/nationalid/mex/curp.js:79-84 | distinct digits and letters have distinct values |
| MexCurp.Values | src/nationalid/mex/curp.js:87-89 | the character values, position by position |
| MexCurp.CheckDigitFor | src/nationalid/mex/curp.js:93-94 | `(10 - sum % 10) % 10` completes the sum to a multiple of 10 |
| MexCurp.CheckDigitForUnique | src/nationalid/mex/curp.js:93-94 | no other digit completes it |
| MexCurp.Checksum | src/nationalid/mex/curp.js:69-97 | the loop with weights 18 - i accepts exactly the well-formed codes whose last digit is the check digit of the first seventeen characters |
| MexCurp.CheckDigitCompletes | src/nationalid/mex/curp.js:69-97 | a well-formed code passes exactly when its weighted sum plus its last digit is a multiple of 10 |
| MexCurp.CenturyYear | src/nationalid/mex/curp.js:51 | yy 00..30 lands in the 2000s, the rest in the 1900s, keeping yy as the last two digits |
| MexCurp.Parse | src/nationalid/mex/curp.js:27-67 | a record exactly when the checksum holds, the month is 1..12 and the day 1..31; H is male; the state code and surname letters split the five-letter group |
| MexCurp.Validate | src/nationalid/mex/curp.js:20-67 | valid exactly when the format and the check digit hold, the month field is 1..12 and the day field 1..31 |
| MexCurp.ChecksumExamples | src/nationalid/mex/curp.js:69-97 | 'GABC900101HDFABC03' passes, '…00' fails, and the test file's 19-character 'GABC900101HDFABC019' does not match REGEXP |
| MexCurp.ParseExample | src/nationalid/mex/curp.js:27-67 | 'GABC900101HDFABC03' is a man born 1990-01-01 in state 'DF' |
| KorRrn.Clean | src/nationalid/kor/rrn.js:94 | removing the first '-' of a well-formed number leaves its thirteen digits |
| KorRrn.CheckDigitFor | src/nationalid/kor/rrn.js:105-106 | `(11 - sum % 11) % 10` completes the sum to a multiple of 11 for remainders 2..10; remainders 0 and 1 give 1 and 0 |
| KorRrn.Checksum | src/nationalid/kor/rrn.js:88-109 | the loop accepts exactly the well-formed numbers whose thirteenth digit is the check digit of the first twelve |
| KorRrn.DashIsOptional | src/nationalid/kor/rrn.js:4 | inserting the dash after the birth date keeps the format, cleans back to the same digits and does not change the checksum |
| KorRrn.CenturyAndGender | src/nationalid/kor/rrn.js:54-73 | a century and gender exactly for the digits 1..4 |
| KorRrn.CenturyAndGenderRoundTrip | src/nationalid/kor/rrn.js:54-73 | 1900s/2000s and male/female determine the digit and are recovered from it |
| KorRrn.Parse | src/nationalid/kor/rrn.js:27-86 | a record exactly when the checksum holds and the month is 1..12 and the day 1..31; digits 1, 2 are the 1900s, 3, 4 the 2000s, 1 and 3 male; the number is returned without its dash; the birth-date text is the one built from the parsed year, month and day |
| KorRrn.Validate | src/nationalid/kor/rrn.js:20-86 | valid exactly when the format and the check digit of the undashed number hold, its month field is 1..12 and its day field 1..31 |
| KorRrn.ParseIgnoresDash | src/nationalid/kor/rrn.js:27-86 | the dashed and the undashed form parse alike |
| KorRrn.ValidExample | src/nationalid/kor/rrn.js:88-109 | '9001011234568' passes (sum 124, check digit 8) |
| KorRrn.RejectedTestVector | src/nationalid/kor/rrn.js:88-109 | the test file's valid '9001011234567' fails |
| KorRrn.ParseExample | src/nationalid/kor/rrn.js:27-86 | '900101-1234568' is a man born 1990-01-01, number '9001011234568' |
| LvaPersonasKods.Clean | src/nationalid/lva/personas_kods.js:83 | removing the first '-' of a well-formed code leaves its eleven digits |
| LvaPersonasKods.CheckDigitFor | src/nationalid/lva/personas_kods.js:99-100 | remainders 2..10 give the digit completing the sum to a multiple of 11; remainders 0 and 1 give 1 |
| LvaPersonasKods.Checksum | src/nationalid/lva/personas_kods.js:82-103 | accepts exactly the strings that are eleven digits once the first dash is removed, with the last digit the check digit (no REGEXP test, as in the source) |
| LvaPersonasKods.DashIsOptional | src/nationalid/lva/personas_kods.js:4 | the dashed form keeps the format, cleans back and has the same checksum |
| LvaPersonasKods.Century | src/nationalid/lva/personas_kods.js:53-63 | century digits 0, 1, 2 give 1800, 1900, 2000; others none |
| LvaPersonasKods.Parse | src/nationalid/lva/personas_kods.js:27-80 | a record exactly when the format and checksum hold, the month is 1..12, the day 1..31 and the century digit 0..2; ddmmyy order; an even gender digit is female; the birth-date text is the one built from the parsed year, month and day |
| LvaPersonasKods.Validate | src/nationalid/lva/personas_kods.js:20-80 | valid exactly when the format and the check digit hold, the month field is 1..12, the day field 1..31 and the century digit at most 2 |
| LvaPersonasKods.ValidExample | src/nationalid/lva/personas_kods.js:82-103 | '01019012348' passes (sum 135, check digit 8) |
| LvaPersonasKods.RejectedTestVector | src/nationalid/lva/personas_kods.js:82-103 | the test file's valid '01019012345' fails |
| LvaPersonasKods.ParseExample | src/nationalid/lva/personas_kods.js:27-80 | '01019012348' is a woman born in 1990 |
| CzRodneCislo.Padded | src/nationalid/cz/rodne_cislo.js:93-99 | a nine-digit number gets one leading '0', a ten-digit one is kept |
| CzRodneCislo.CheckDigitFor | src/nationalid/cz/rodne_cislo.js:109-110 | the check digit is the weighted sum's remainder mod 11, or 0 for remainder 10 |
| CzRodneCislo.Checksum | src/nationalid/cz/rodne_cislo.js:86-113 | the loop accepts exactly the nine- or ten-digit numbers whose padded tenth digit is the check digit of the padded first nine |
| CzRodneCislo.BirthMonthYear | src/nationalid/cz/rodne_cislo.js:49-69 | a month field in one of the four ranges is a month 1..12 plus 0, 20, 50 or 70; the year is in the 2000s exactly for the ranges 21..32 and 71..82, otherwise in the 1900s |
| CzRodneCislo.GenderOfMonth | src/nationalid/cz/rodne_cislo.js:74 | female means the month field carries 50 or 70 on top of the month, male (every other field) 0 or 20 |
| CzRodneCislo.LeadingZeroIrrelevant | src/nationalid/cz/rodne_cislo.js:99 | a nine-digit number and the same number with a leading 0 pass or fail together |
| CzRodneCislo.MonthCodeRoundTrip | src/nationalid/cz/rodne_cislo.js:49-74 | the month field (+50 for women, +20 for the 2000s) encodes month, century and gender one to one within its four ranges |
| CzRodneCislo.Parse | src/nationalid/cz/rodne_cislo.js:27-84 | a record exactly when the checksum holds; month, year and gender are the decoding of the month field, any other month kept in the 1900s; the birth-date text is the one built from that year, month and the day |
| CzRodneCislo.Validate | src/nationalid/cz/rodne_cislo.js:20-84 | valid exactly when the format holds and the padded tenth digit is the check digit; any month field is accepted |
| CzRodneCislo.ChecksumExamples | src/nationalid/cz/rodne_cislo.js:86-113 | '1234567890' and '9876543210' pass; '1111111110' fails |
| CzRodneCislo.NineDigitExample | src/nationalid/cz/rodne_cislo.js:94-112 | the nine-digit '123456789' passes, read as '0123456789' |
| CzRodneCislo.ParseExample | src/nationalid/cz/rodne_cislo.js:27-84 | '9876543210' is a woman born in June 2098 (month field 76) |
| SkRodneCislo.CheckDigitFor | src/nationalid/sk/rodne_cislo.js:99-100 | remainders 2..10 give the digit completing the weighted sum to a multiple of 11; remainders 0 and 1 are the check digit themselves |
| SkRodneCislo.Checksum | src/nationalid/sk/rodne_cislo.js:79-103 | the loop accepts exactly the ten-digit numbers whose last digit is the check digit of the first nine |
| SkRodneCislo.DecodeMonth | src/nationalid/sk/rodne_cislo.js:46-64 | a decoding exactly for the month fields 1..12, 21..32 and 51..62; the month is 1..12, offset by 0, 20 or 50; men are exactly the 1900s; the 2000s exactly the fields above 12 |
| SkRodneCislo.DecodeMonthAmbiguous | src/nationalid/sk/rodne_cislo.js:50-61 | offsets 20 and 50 decode alike (2000s, female), so the code never yields a woman of the 1900s or a man of the 2000s |
| SkRodneCislo.Parse | src/nationalid/sk/rodne_cislo.js:27-77 | a record exactly when the checksum holds and the month field decodes; fields from that decoding; the birth-date text is the one built from that year, month and the day |
| SkRodneCislo.Validate | src/nationalid/sk/rodne_cislo.js:20-77 | valid exactly when the format and the check digit hold and the month field decodes to a month |
| SkRodneCislo.ChecksumExamples | src/nationalid/sk/rodne_cislo.js:79-103 | '1204156785' and '9856012341' pass; '1111111110' fails |
| SkRodneCislo.ParseExample | src/nationalid/sk/rodne_cislo.js:27-77 | '9856012341' is a woman born in June 2098 |
| SkRodneCislo.ChecksumWithoutDate | src/nationalid/sk/rodne_cislo.js:62-64 | '1234567891' passes the checksum but month field 34 makes parse return null |
| HuSzemelyiSzam.CheckDigitFor | src/nationalid/hu/szemelyi_szam.js:106-107 | the check digit completes the weighted sum to a multiple of 10 |
| HuSzemelyiSzam.CheckDigitForUnique | src/nationalid/hu/szemelyi_szam.js:106-107 | no other digit completes it |
| HuSzemelyiSzam.CheckDigitMeaning | src/nationalid/hu/szemelyi_szam.js:86-110 | a number passes exactly when its weighted sum plus its last digit is a multiple of 10 |
| HuSzemelyiSzam.Checksum | src/nationalid/hu/szemelyi_szam.js:86-110 | the loop accepts exactly the eleven-digit numbers whose last digit is the check digit of the first ten |
| HuSzemelyiSzam.BirthMonthYear | src/nationalid/hu/szemelyi_szam.js:49-69 | a month field in 1..12, 21..32 or 41..52 is a month 1..12 plus 0, 20 or 40; the year is in the 2000s exactly for fields 1..12, otherwise in the 1900s |
| HuSzemelyiSzam.GenderOfMonth | src/nationalid/hu/szemelyi_szam.js:74 | female means the month field carries 20 or 40 on top of the month, male that it carries nothing |
| HuSzemelyiSzam.SecondBranchUnreachable | src/nationalid/hu/szemelyi_szam.js:49-69 | only month fields 1..12 give the 2000s, so the second 21..32 branch is dead; fields in the three ranges give months 1..12, the rest are kept in the 1900s |
| HuSzemelyiSzam.NoWomenOfThe2000s | src/nationalid/hu/szemelyi_szam.js:49-74 | every month field the code labels female lands in the 1900s |
| HuSzemelyiSzam.Parse | src/nationalid/hu/szemelyi_szam.js:27-84 | a record exactly when the checksum holds; month, year and gender are those the month field decodes to; the birth-date text is the one built from that year, month and the day |
| HuSzemelyiSzam.Validate | src/nationalid/hu/szemelyi_szam.js:20-84 | valid exactly when the format holds and the last digit is the check digit; any month field is accepted |
| HuSzemelyiSzam.ChecksumExamples | src/nationalid/hu/szemelyi_szam.js:86-110 | '12345678905' and '98765432105' pass; '12345678900' fails |
| HuSzemelyiSzam.ParseExample | src/nationalid/hu/szemelyi_szam.js:27-84 | '12345678905' is a man of 1912 with the month kept as 34 |
| SgpNric.PrefixValue | src/nationalid/sgp/nric.js:78-79 | the prefix offset: T and G add 4, M adds 3, S and F nothing |
| SgpNric.CheckLetters | src/nationalid/sgp/nric.js:84-90 | each prefix has a table of eleven letters |
| SgpNric.CheckLettersDistinct | src/nationalid/sgp/nric.js:84-90 | within each table the eleven letters are distinct upper-case letters |
| SgpNric.TablesRotated | src/nationalid/sgp/nric.js:78-88 | the T and G tables are the S and F tables rotated by four places |
| SgpNric.Remainder | src/nationalid/sgp/nric.js:69-81 | the remainder is always an index of the prefix's table |
| SgpNric.Checksum | src/nationalid/sgp/nric.js:60-94 | the loop accepts exactly the well-formed numbers whose letter is the table entry at the remainder |
| SgpNric.CheckLetterUnique | src/nationalid/sgp/nric.js:60-94 | two accepted numbers that agree on prefix and digits agree on the letter |
| SgpNric.Citizenship | src/nationalid/sgp/nric.js:41-48 | S and T are citizens, F and G permanent residents, M foreigners; no other prefix has one |
| SgpNric.Parse | src/nationalid/sgp/nric.js:27-58 | a record exactly when the checksum holds, holding the prefix, the digits, the letter and the prefix's citizenship |
| SgpNric.Validate | src/nationalid/sgp/nric.js:20-58 | valid exactly when the format holds and the last letter is the prefix table's letter for the weighted remainder |
| SgpNric.ChecksumExamples | src/nationalid/sgp/nric.js:60-94 | 'S1234567D' and 'F1234567N' pass; 'S1234567A' fails |
| SgpNric.RejectedTestVector | src/nationalid/sgp/nric.js:60-94 | the test file's valid 'T9876543A' fails; the code wants 'T9876543F' |
| SgpNric.ParseExample | src/nationalid/sgp/nric.js:27-58 | 'F1234567N' is a permanent resident with digits '1234567' |
| ChnResidentId.Pow2 | src/nationalid/chn/resident_id.js:79 | `Math.pow(2, k)` is a positive integer |
| ChnResidentId.WeightsArePowersOfTwo | src/nationalid/chn/resident_id.js:79 | the constant weights are exactly `2^(17-i) % 11` |
| ChnResidentId.CheckOf | src/nationalid/chn/resident_id.js:77-81 | `(12 - total % 11) % 11` is the value 0..10 that brings the weighted total to 1 mod 11 (ISO/IEC 7064 MOD 11-2) |
| ChnResidentId.CheckOfUnique | src/nationalid/chn/resident_id.js:77-81 | no other value does |
| ChnResidentId.CheckValueOf | src/nationalid/chn/resident_id.js:82 | the value 10 becomes 'X', 0..9 stay numbers |
| ChnResidentId.Checksum | src/nationalid/chn/resident_id.js:68-83 | null exactly when REGEXP fails; otherwise the loop returns the check value of the first seventeen digits |
| ChnResidentId.Parse | src/nationalid/chn/resident_id.js:38-66 | a record exactly when the check character agrees and `Date.UTC` gives back the same year, month and day; address code, date, serial, gender (even serial female) and check value |
| ChnResidentId.Validate | src/nationalid/chn/resident_id.js:31-66 | valid exactly when the format and the check character hold and `Date.UTC` gives back the year, month and day of the birth-date field |
| ChnResidentId.ValidExample | src/nationalid/chn/resident_id.js:68-83 | '11010219840406970X' has check character X (total 266) |
| ChnResidentId.ParseExample | src/nationalid/chn/resident_id.js:38-66 | '11010219840406970X' is a woman born 1984-04-06 at address 110102, serial 970 |
| ChnResidentId.InvalidExample | src/nationalid/chn/resident_id.js:44 | '11010219840506970X' fails: changing the month makes the total 275, which calls for check character 1 |
| DeuTaxId.Groups | src/nationalid/deu/tax_id.js:3 | a match of REGEXP yields its eleven digits |
| DeuTaxId.NormalizeFormat | src/nationalid/deu/tax_id.js:5-7 | removing the spaces of a well-formed number gives the same eleven digits |
| DeuTaxId.Normalize | src/nationalid/deu/tax_id.js:5-7 | the result holds no space, and an input without spaces comes back unchanged |
| DeuTaxId.CheckDigit | src/nationalid/deu/tax_id.js:53-55 | `getCheckdigit` is the ISO 7064 MOD 11,10 digit: the one that makes the fold's final product plus the digit 1 mod 10 |
| DeuTaxId.CheckDigitMeaning | src/nationalid/deu/tax_id.js:44-55 | a number passes exactly when the fold over its first ten digits plus the last digit is 1 mod 10 |
| DeuTaxId.Checksum | src/nationalid/deu/tax_id.js:44-51 | accepts exactly the well-formed numbers whose last digit is the check digit of the ten before it |
| DeuTaxId.Insert | src/nationalid/deu/tax_id.js:58 | inserting into a sorted string keeps it sorted and adds exactly one character |
| DeuTaxId.Sort | src/nationalid/deu/tax_id.js:58 | `sort()` of the leading digits: sorted and a permutation |
| DeuTaxId.SortedCountNeighbours | src/nationalid/deu/tax_id.js:58-67 | in a sorted string a character occurring twice occurs twice in a row |
| DeuTaxId.SortedNeighbourPairs | src/nationalid/deu/tax_id.js:58-67 | for a sorted string, all equal neighbour pairs agreeing is the same as at most one character repeating |
| DeuTaxId.DropLast | src/nationalid/deu/tax_id.js:58 | `slice(0, -1)` drops the last character |
| DeuTaxId.NeighbourScan | src/nationalid/deu/tax_id.js:59-68 | the `firstMultiple` loop accepts exactly when every pair of equal neighbours holds the same digit |
| DeuTaxId.CheckMultipleOccurrence | src/nationalid/deu/tax_id.js:57-69 | accepts exactly when at most one digit of the first ten occurs more than once |
| DeuTaxId.CheckConsecutivePosition | src/nationalid/deu/tax_id.js:71-82 | accepts exactly when no digit equals the next two |
| DeuTaxId.TripleRunRepeats | src/nationalid/deu/tax_id.js:57-82 | a run of three among the first ten digits makes that digit the repeated one |
| DeuTaxId.Validate | src/nationalid/deu/tax_id.js:31-42 | accepts exactly when the format, the repetition rule, the run rule and the check digit all hold |
| DeuTaxId.ValidCheckDigitExample | src/nationalid/deu/tax_id.js:44-55 | '65929970489' has the right check digit 9 |
| DeuTaxId.TripleRunExample | src/nationalid/deu/tax_id.js:71-82 | '65299970480' has three nines in a row |
| DeuTaxId.WrongCheckDigitExample | src/nationalid/deu/tax_id.js:44-55 | '26954371820' has the wrong check digit (7 is needed) |
| BrNationalId.FormatDigits | src/nationalid/br/national_id.js:33 | removing the non-digits of a well-formed number leaves its four digit groups joined |
| BrNationalId.CheckDigitFor | src/nationalid/br/national_id.js:70-71 | `(sum * 10) % 11` with 10 read as 0 makes the sum plus the digit a multiple of 11, except remainder 1, which gives 0 |
| BrNationalId.CheckDigitMeaning | src/nationalid/br/national_id.js:70-71 | the check digit is exactly the digit with that property |
| BrNationalId.Checksum | src/nationalid/br/national_id.js:53-82 | the two loops accept exactly the strings whose digits are eleven, not all equal, and end in the two check digits |
| BrNationalId.CheckDigitsMatch | src/nationalid/br/national_id.js:65-81 | the two weighted loops accept eleven digits exactly when digits 10 and 11 are the check digits of the nine and ten before them |
| BrNationalId.WeightedSumOfRepdigit | src/nationalid/br/national_id.js:67-77 | a weighted sum of equal digits is the digit times the sum of the weights |
| BrNationalId.RepdigitsPassArithmetic | src/nationalid/br/national_id.js:61-81 | eleven equal digits satisfy both check digits, so only the repeated-digit rule rejects them |
| BrNationalId.Parse | src/nationalid/br/national_id.js:27-51 | a record exactly when the layout and the check digits hold, holding the region, sequence and check groups |
| BrNationalId.Validate | src/nationalid/br/national_id.js:20-51 | valid exactly when the layout holds and the eleven digits, not all equal, carry both check digits |
| BrNationalId.ValidExample | src/nationalid/br/national_id.js:53-82 | '111.444.777-35' passes (sums 162 and 204) |
| BrNationalId.WrongCheckDigitExample | src/nationalid/br/national_id.js:53-82 | '111.444.777-34' fails |
| BrNationalId.ParseExample | src/nationalid/br/national_id.js:27-51 | '111.444.777-35' parses to region '111', sequence '444', check digits '35' |
| EgyNationalId.Checksum | src/nationalid/egy/national_id.js:59-68 | None exactly when the format fails; otherwise the Luhn digit that completes the first thirteen digits' total to a multiple of 10 |
| EgyNationalId.ChecksumMeaning | src/nationalid/egy/national_id.js:59-68 | the last digit is the checksum exactly when it completes the Luhn total |
| EgyNationalId.BirthYear | src/nationalid/egy/national_id.js:32-36 | century digit 2 is the 1900s, 3 the 2000s; yy is kept |
| EgyNationalId.Parse | src/nationalid/egy/national_id.js:27-57 | a record exactly when the format holds, the date exists (`Date.UTC` gives it back) and the Luhn total closes; governorate, serial, gender (odd last serial digit male) and checksum |
| EgyNationalId.Validate | src/nationalid/egy/national_id.js:20-57 | valid exactly when the format holds, the birth date exists and the Luhn total of the first thirteen digits plus the last is a multiple of 10 |
| EgyNationalId.ChecksumExamples | src/nationalid/egy/national_id.js:59-68 | '29001010100015' has checksum 5 and '…14' does not pass |
| EgyNationalId.ParseExample | src/nationalid/egy/national_id.js:27-57 | '29001010100015' is a man born 1990-01-01 in governorate '01', serial '0001' |
| LkaNationalId.CheckDigit | src/nationalid/lka/national_id.js:60-63 | remainders 2..10 give the digit completing the weighted total to a multiple of 11; remainder 1 gives 0 and remainder 0 gives 1 (11 mod 10) |
| LkaNationalId.Checksum | src/nationalid/lka/national_id.js:56-65 | true exactly when the format holds and the last digit is the check digit |
| LkaNationalId.CheckDigitUnique | src/nationalid/lka/national_id.js:56-65 | changing only the last digit of a number that passes makes it fail |
| LkaNationalId.Parse | src/nationalid/lka/national_id.js:31-54 | a record exactly when the checksum holds; the birth date is January 1 of the year moved by days - 1 (days - 501 above 500); male below 500 days |
| LkaNationalId.Validate | src/nationalid/lka/national_id.js:24-54 | valid exactly when the checksum holds; every day number then gives a date |
| LkaNationalId.ParseDayOfYear | src/nationalid/lka/national_id.js:43-47 | the offset `setUTCDate` adds (the day field minus 1, or minus 501 above 500) lies in -1..499; inside the year the birth date is that day of that year, past its end it is the matching day of the next year, and -1 gives December 31 of the year before |
| LkaNationalId.ChecksumExample | src/nationalid/lka/national_id.js:56-65 | '200159302029' passes (total 134) |
| LkaNationalId.AprilThird2001 | src/nationalid/lka/national_id.js:43-44 | January 1, 2001 moved by 92 days is April 3 |
| LkaNationalId.ParseExample | src/nationalid/lka/national_id.js:31-54 | '200159302029' is a woman born 2001-04-03, serial '0202', checksum 9 |
| LkaOldNationalId.ToNew | src/nationalid/lka/old_national_id.js:24-31 | a new number exactly for a well-formed old one: '19', the year and days, '0', the serial and the check digit |
| LkaOldNationalId.ToOld | src/nationalid/lka/old_national_id.js:5 | a new number of the 1900s with a zero serial prefix, plus one of X, x, V, v, is a well-formed old number |
| LkaOldNationalId.ToOldToNew | src/nationalid/lka/old_national_id.js:24-31 | converting an old number and back restores it |
| LkaOldNationalId.ToNewToOld | src/nationalid/lka/old_national_id.js:24-31 | converting such a new number to old and back restores it |
| LkaOldNationalId.Checksum | src/nationalid/lka/old_national_id.js:56-62 | true exactly when the format holds and the new form passes the new check |
| LkaOldNationalId.OldTotal | src/nationalid/lka/old_national_id.js:30 | the new form's weighted total is 44 (for '19') plus the old digits' own weighted total |
| LkaOldNationalId.Parse | src/nationalid/lka/old_national_id.js:40-54 | a record exactly when the check holds; the new form's date and gender, the serial with its leading zero, V (either case) a citizen and X a resident |
| LkaOldNationalId.Validate | src/nationalid/lka/old_national_id.js:33-54 | valid exactly when the check holds |
| LkaOldNationalId.ToNewExample | src/nationalid/lka/old_national_id.js:24-31 | '961203996V' becomes '199612003996' |
| LkaOldNationalId.ChecksumExample | src/nationalid/lka/old_national_id.js:56-62 | '923404716V' passes |
| LkaOldNationalId.ParseExample | src/nationalid/lka/old_national_id.js:40-54 | '923404716V' has serial '0471', checksum 6 and is a citizen |
| LkaOldNationalId.BirthExample | src/nationalid/lka/old_national_id.js:40-54 | '923404716V' is a man born 1992-12-05 |
| ItaFiscalCode.CharIndex | src/nationalid/ita/fiscal_code.js:7-8 | a digit's or letter's index into the tables, digits 0..9 and letters 0..25 |
| ItaFiscalCode.TableShapes | src/nationalid/ita/fiscal_code.js:7-8 | MAGIC_EVEN_CHAR_MAP maps each character to its index, MAGIC_ODD_CHAR_MAP maps a digit like the letter of the same index, and every value is below 26 |
| ItaFiscalCode.PositionValueInjective | src/nationalid/ita/fiscal_code.js:7-8 | two different digits, or two different letters, have different values at the same position |
| ItaFiscalCode.FormatAlphanumeric | src/nationalid/ita/fiscal_code.js:4 | the first fifteen characters of a well-formed code are digits or capital letters |
| ItaFiscalCode.CheckLetter | src/nationalid/ita/fiscal_code.js:66-78 | the check letter is a capital letter, 'A' plus the total mod 26 |
| ItaFiscalCode.Checksum | src/nationalid/ita/fiscal_code.js:62-79 | null exactly when REGEXP fails; otherwise the odd/even loop returns the check letter |
| ItaFiscalCode.SumPositions | src/nationalid/ita/fiscal_code.js:66-76 | the odd/even loop over the fifteen characters before the check letter adds up to their table total |
| ItaFiscalCode.TotalDiffers | src/nationalid/ita/fiscal_code.js:67-76 | two codes that differ at one position have totals that differ by the difference of that position's values |
| ItaFiscalCode.CheckLetterDetectsSubstitution | src/nationalid/ita/fiscal_code.js:62-79 | replacing one digit by another digit, or one letter by another letter, among the first fifteen changes the check letter |
| ItaFiscalCode.Sterilize | src/nationalid/ita/fiscal_code.js:114-128 | `sterilizeNumbers` succeeds exactly when every letter has a digit in NUMERIC_REPLACEMENT, and then replaces each letter by it, keeping the rest, position by position |
| ItaFiscalCode.SterilizeNumbers | src/nationalid/ita/fiscal_code.js:114-128 | the backward loop with its final reverse computes it |
| ItaFiscalCode.SterilizeReversed | src/nationalid/ita/fiscal_code.js:116-127 | replacements collected from the last character to the first, reversed, are the sterilized string |
| ItaFiscalCode.Reverse | src/nationalid/ita/fiscal_code.js:127 | the characters in the opposite order |
| ItaFiscalCode.SterilizeGivesDigits | src/nationalid/ita/fiscal_code.js:114-128 | sterilizing the field of a well-formed code gives only digits |
| ItaFiscalCode.MonthOf | src/nationalid/ita/fiscal_code.js:6 | a month exactly for the twelve letters of MONTH_MAP, 1..12 in their order |
| ItaFiscalCode.BirthYear | src/nationalid/ita/fiscal_code.js:95 | yy below 50 is the 2000s, the rest the 1900s (1950..2049 for two digits) |
| ItaFiscalCode.NumberField | src/nationalid/ita/fiscal_code.js:85-94 | a number exactly when the field sterilizes to something nonempty |
| ItaFiscalCode.DayOf | src/nationalid/ita/fiscal_code.js:97 | a day field of 40 or more stands for the day plus 40 |
| ItaFiscalCode.ExtractBirthday | src/nationalid/ita/fiscal_code.js:81-112 | a birthday exactly when the month letter is known, both fields sterilize and the date exists; women have day fields of 40 or more |
| ItaFiscalCode.Parse | src/nationalid/ita/fiscal_code.js:35-60 | a record exactly when the format holds, the area digits sterilize, the birthday decodes and the last letter is the check letter; the fields are the consonant groups, the sterilized area code, the birthday and the check letter |
| ItaFiscalCode.Validate | src/nationalid/ita/fiscal_code.js:28-60 | valid exactly when the format holds, the area digits sterilize, the birthday decodes and the last letter is the check letter |
| ItaFiscalCode.CheckLetterOfSample | src/nationalid/ita/fiscal_code.js:62-79 | 'MLLSNT82P65Z404U' has check letter 'U' (total 176) |
| ItaFiscalCode.BirthdayOfSample | src/nationalid/ita/fiscal_code.js:81-112 | '82', 'P', '65' is a woman born 1982-09-25 |
| ItaFiscalCode.ParseExample | src/nationalid/ita/fiscal_code.js:35-60 | 'MLLSNT82P65Z404U' parses to 'MLL', 'SNT', area 'Z404', a woman born 1982-09-25, check letter 'U' |
| ItaFiscalCode.InvalidExamples | src/nationalid/ita/fiscal_code.js:81-83 | 'MRTMT91D08F205J' (a letter short) and 'MLLSNT82X65Z404U' ('X' is no month) are invalid |
| FraInsee.FormatGroups | src/nationalid/fra/insee.js:4 | the year, month and control-key groups of a well-formed number are digits |
| FraInsee.ReplacePairSkips | src/nationalid/fra/insee.js:60 | `replace` with a two-character pattern finds nothing where the pattern's second character does not occur |
| FraInsee.ReplaceCorsica | src/nationalid/fra/insee.js:60 | in a well-formed number the first 2A (2B) can only be the department, and only it is replaced |
| FraInsee.UpperDigit | src/nationalid/fra/insee.js:7 | upper-casing keeps digits, makes none, and maps only a/A to A and b/B to B |
| FraInsee.Normalized | src/nationalid/fra/insee.js:60 | on a well-formed number the normalized text is fifteen digits: the input with Corsica's 2A read as 19, 2B as 18 and nothing else changed |
| FraInsee.Checksum | src/nationalid/fra/insee.js:56-62 | None (null) exactly when the format fails; otherwise a key from 1 to 97 that makes the thirteen-digit body plus the key a multiple of 97 |
| FraInsee.ChecksumUnique | src/nationalid/fra/insee.js:61 | any key from 1 to 97 completing the body to a multiple of 97 is the checksum |
| FraInsee.KeyUnique | src/nationalid/fra/insee.js:61 | 97 minus the remainder is the only key in 1..97 closing a body modulo 97 |
| FraInsee.DepartmentCodeFacts | src/nationalid/fra/insee.js:65 | the upper-cased department code is the code itself when it is two digits and is 2A/2B exactly for Corsica in either case |
| FraInsee.ValidateBirthDepartment | src/nationalid/fra/insee.js:64-77 | None exactly for 00 and 96 (and non-digit codes other than Corsica); 01-95 and Corsica split 2+3 into department and commune, 97-98 split 3+2, 99 is a country |
| FraInsee.SmallKeysRejectedAsWritten | src/nationalid/fra/insee.js:44 | `String(key)` of a key below 10 never equals a two-character control key |
| FraInsee.KeyMatchesAsWritten | src/nationalid/fra/insee.js:44 | as written the key matches only a control key of digits whose value is the key, and a key below 10 never matches two characters |
| FraInsee.KeyMatchesExactly | src/nationalid/fra/insee.js:44 | the corrected comparison accepts exactly the zero-padded two-digit spelling of the key |
| FraInsee.DecimalInjective2 | src/nationalid/fra/insee.js:44 | two two-digit strings with the same value are equal |
| FraInsee.FormatUpper | src/nationalid/fra/insee.js:35 | upper-casing neither makes nor breaks the format and changes no character but the Corsican letter |
| FraInsee.ParseAsWritten | src/nationalid/fra/insee.js:34-54 | a record only when the format holds and `String(key)` equals the control key |
| FraInsee.Parse | src/nationalid/fra/insee.js:34-54 | a record exactly when the format holds, the department is known and the control key's value is the checksum; sex digit 1 is male, yy, mm and control key copied |
| FraInsee.Validate | src/nationalid/fra/insee.js:27-54 | valid exactly when the format holds, the department is known and the control key's value is the checksum |
| FraInsee.BodyOutsideCorsica | src/nationalid/fra/insee.js:60-61 | outside Corsica the body is the first thirteen characters as written |
| FraInsee.ChecksumOfBody | src/nationalid/fra/insee.js:61 | the key is 97 minus the body modulo 97 |
| FraInsee.ChecksumExample | src/nationalid/fra/insee.js:56-62 | '255081416802538' has key 38 |
| FraInsee.CorsicanChecksumExample | src/nationalid/fra/insee.js:60-61 | '255082A16802597' has key 97, with 2A read as 19 |
| FraInsee.ParseExample | src/nationalid/fra/insee.js:34-54 | '255082A16802597' parses to a woman born in August '55 with control key '97' |
| FraInsee.InvalidExample | src/nationalid/fra/insee.js:27-32 | '255082E16802597' is not valid |
| FraInsee.SmallKeyChecksum | src/nationalid/fra/insee.js:56-62 | '255081416805409' has key 9 |
| FraInsee.SmallKeyRejectedAsWritten | src/nationalid/fra/insee.js:44 | as written, '255081416805409' is rejected although its key 09 is right |
| FraInsee.SmallKeyAccepted | src/nationalid/fra/insee.js:34-54 | with the corrected comparison '255081416805409' parses |
| ChlRut.BodyDigits | src/nationalid/chl/rut.js:25 | the body groups, when they match, join to seven to nine digits |
| ChlRut.Match | src/nationalid/chl/rut.js:20-26 | a match has seven to nine body digits and its check character, a digit or k/K, is the last character |
| ChlRut.Multiplier | src/nationalid/chl/rut.js:29-36 | every multiplier lies between 2 and 7 |
| ChlRut.MultiplierStep | src/nationalid/chl/rut.js:33-36 | the cyclic closed form agrees with the loop's step: one more, back to 2 after 7 |
| ChlRut.CheckValue | src/nationalid/chl/rut.js:44-45 | a check character stands for 0..10, K for 10 |
| ChlRut.ExpectedCheck | src/nationalid/chl/rut.js:39-48 | the expected check is a digit or K |
| ChlRut.ExpectedCheckMeaning | src/nationalid/chl/rut.js:39-48 | the expected check is a given digit or K exactly when its value completes the sum to a multiple of 11 |
| ChlRut.Validate | src/nationalid/chl/rut.js:19-51 | the method's answer is the validity predicate: the match succeeds and the upper-cased check character is the expected one |
| ChlRut.ExpectedCheckOf | src/nationalid/chl/rut.js:28-48 | the right-to-left loop with the cycling multiplier computes the expected check of the weighted sum |
| ChlRut.IsValidMeaning | src/nationalid/chl/rut.js:19-51 | a matched RUT is valid exactly when the check character's value completes the weighted sum to a multiple of 11 |
| ChlRut.CaseInsensitive | src/nationalid/chl/rut.js:26 | a final 'k' and 'K' give the same answer |
| ChlRut.FirstExample | src/nationalid/chl/rut.js:19-51 | '12345678-5' is valid and '12345678-4' is not |
| ChlRut.KExample | src/nationalid/chl/rut.js:44-45 | '22220013-K' and '22220013-k' are valid, '22220013-1' is not |
| ChlRut.ZeroExample | src/nationalid/chl/rut.js:42-43 | '30000001-0' is valid (remainder 11 is written '0') |
| HrvOib.CheckDigit | src/nationalid/hrv/oib.js:24-38 | the check digit lies in 0..9 and satisfies the ISO 7064 MOD 11,10 condition (final product plus digit is 1 modulo 10); it is the shared MN-modulus digit with overflow 10 read as 0 |
| HrvOib.CheckDigitUnique | src/nationalid/hrv/oib.js:35-40 | no other digit satisfies that condition |
| HrvOib.Validate | src/nationalid/hrv/oib.js:19-41 | the loop's answer is the validity predicate: eleven digits whose last one is the check digit of the fold from 10 |
| HrvOib.IsValidMeaning | src/nationalid/hrv/oib.js:19-41 | an eleven-digit number is valid exactly when the final product plus the last digit is 1 modulo 10 |
| HrvOib.FirstExample | src/nationalid/hrv/oib.js:19-41 | '12345678903' is valid |
| HrvOib.SecondExample | src/nationalid/hrv/oib.js:19-41 | '98765432106' is valid |
| HrvOib.RepeatedOnesExample | src/nationalid/hrv/oib.js:35-40 | '11111111119' is valid and '11111111111' is not |
| TurNationalId.DigitEleven | src/nationalid/tur/national_id.js:34 | digit eleven is a digit that differs from the sum of the first ten digits by a multiple of 10 |
| TurNationalId.JsIntString | src/nationalid/tur/national_id.js:35 | the template text of a non-negative integer is its decimal digits; that of a negative one starts with '-' and has at least two characters |
| TurNationalId.DigitTenAsWritten | src/nationalid/tur/national_id.js:4-33 | JavaScript's truncating remainder: it differs from the alternating 7/-1 sum by a multiple of 10 and is negative (down to -9) when the sum is |
| TurNationalId.ChecksumAsWritten | src/nationalid/tur/national_id.js:31-36 | for a non-negative digit ten the text is two digits, digit ten then digit eleven; for a negative one it is three characters starting with '-' |
| TurNationalId.ValidateAsWritten | src/nationalid/tur/national_id.js:24-36 | as written, valid exactly when the format holds and the last two digits are the truncating digit ten and digit eleven |
| TurNationalId.NegativeTotalRejectedAsWritten | src/nationalid/tur/national_id.js:28-35 | as written, a number whose weighted sum is negative and not a multiple of 10 is never valid: its checksum text has three characters |
| TurNationalId.DigitTen | src/nationalid/tur/national_id.js:4-33 | the corrected digit ten is a digit in 0..9 differing from the weighted sum by a multiple of 10 |
| TurNationalId.CheckDigitsUnique | src/nationalid/tur/national_id.js:33-34 | any two digits completing the two sums are digits ten and eleven |
| TurNationalId.ValidateMeaning | src/nationalid/tur/national_id.js:24-36 | a number is valid exactly when the format holds, its tenth digit completes the weighted sum and its eleventh the digit sum, modulo 10 |
| TurNationalId.Validate | src/nationalid/tur/national_id.js:24-36 | a valid number has the format and its tenth digit completes the weighted sum, its eleventh the digit sum, modulo 10 |
| TurNationalId.NatStringDigit | src/nationalid/tur/national_id.js:35 | the text of a digit is that one character |
| TurNationalId.AsWrittenAgrees | src/nationalid/tur/national_id.js:24-36 | the code as written and the corrected definition agree on every number whose weighted sum is non-negative or a multiple of 10 |
| TurNationalId.FirstExample | src/nationalid/tur/national_id.js:24-36 | '10000000146' is valid and '10000000145' is not, in both readings |
| TurNationalId.SecondExample | src/nationalid/tur/national_id.js:24-36 | '15973515680' is valid in both readings |
| TurNationalId.LeadingZeroExample | src/nationalid/tur/national_id.js:3 | '00000000178' is rejected for its leading 0 |
| TurNationalId.NegativeTotalExample | src/nationalid/tur/national_id.js:25-36 | '19090909018' satisfies both check digits yet the code as written rejects it |
| IrnNationalId.Groups | src/nationalid/irn/national_id.js:3 | the three digit groups, with each optional '-' dropped, are ten digits |
| IrnNationalId.NormalizeGroups | src/nationalid/irn/national_id.js:22-24 | removing every '-' from a well-formed number leaves exactly its ten digits |
| IrnNationalId.Normalize | src/nationalid/irn/national_id.js:22-24 | the result holds no dash, and an input without dashes comes back unchanged |
| IrnNationalId.Checksum | src/nationalid/irn/national_id.js:35-49 | None (null) exactly without the format; else a digit: the remainder of the 10..2-weighted sum modulo 11 when it is 0 or 1, and otherwise the digit that completes the sum to a multiple of 11 |
| IrnNationalId.ValidateNormalized | src/nationalid/irn/national_id.js:26-33 | the digit `validate` reads is the tenth digit, and validity is that digit equalling the checksum |
| IrnNationalId.ValidateMeaning | src/nationalid/irn/national_id.js:26-49 | a well-formed number is valid exactly when its last digit is the remainder (below 2) or completes the weighted sum to a multiple of 11 (remainder 2 or more) |
| IrnNationalId.Validate | src/nationalid/irn/national_id.js:26-33 | a valid number has the format, and its last digit is the remainder (below 2) or completes the weighted sum to a multiple of 11 |
| IrnNationalId.DashedExample | src/nationalid/irn/national_id.js:26-49 | '472-171992-2' is valid |
| IrnNationalId.DashedWrongExample | src/nationalid/irn/national_id.js:26-49 | '472-171992-1' is not |
| IrnNationalId.SampleExample | src/nationalid/irn/national_id.js:26-49 | '4608968882' is valid |
| IrnNationalId.OnesExample | src/nationalid/irn/national_id.js:48 | '1111111111' is valid (remainder 10 gives 1) |
| IrnNationalId.LeadingZeroExample | src/nationalid/irn/national_id.js:48 | '0939092001' is valid (remainder 1 is the digit itself) |
| IrnNationalId.WrongExample | src/nationalid/irn/national_id.js:26-49 | '2130396217' is not valid |
| IrnNationalId.ZerosExample | src/nationalid/irn/national_id.js:48 | '0000000001' is not valid (the sum 0 asks for 0) |
| IrnNationalId.LettersExample | src/nationalid/irn/national_id.js:3 | 'abcd1234' is rejected by the format |
| CaSocialInsurance.FormatDigits | src/nationalid/ca/social_insurance.js:33 | the digits of a well-formed number are its three groups joined |
| CaSocialInsurance.ChecksumMeaning | src/nationalid/ca/social_insurance.js:59-80 | `checksum` holds exactly when the string contains nine digits, not all equal, without an excluded prefix (000, 666, 9xx), whose ninth is the Luhn check digit of the first eight |
| CaSocialInsurance.Checksum | src/nationalid/ca/social_insurance.js:59-80 | true exactly when the string holds nine digits, not all equal, without the prefix 000, 666 or 9xx, whose Luhn total is a multiple of 10 |
| CaSocialInsurance.Parse | src/nationalid/ca/social_insurance.js:27-57 | a record exactly when the format and the checksum hold; then the digits pass every guard and the Luhn test, and area, group and serial are the three groups |
| CaSocialInsurance.Validate | src/nationalid/ca/social_insurance.js:20-57 | valid exactly when the format holds and the three groups joined pass the guards and the Luhn test |
| CaSocialInsurance.ParseExample | src/nationalid/ca/social_insurance.js:27-57 | '130-692-544' parses to area '130', group '692', serial '544' |
| CaSocialInsurance.SecondExample | src/nationalid/ca/social_insurance.js:20-25 | '046-454-286' is valid |
| CaSocialInsurance.WrongCheckDigitExamples | src/nationalid/ca/social_insurance.js:77-79 | '123-456-781' and '123-456-783' fail the Luhn test |
| CaSocialInsurance.ZerosExample | src/nationalid/ca/social_insurance.js:66-69 | '000-000-000' passes the Luhn test yet is rejected by the guards |
| CaSocialInsurance.RepdigitExample | src/nationalid/ca/social_insurance.js:66-69 | nine equal digits are always rejected |
| CaSocialInsurance.PrefixRejected | src/nationalid/ca/social_insurance.js:71-75 | a number starting 000, 666 or 9 is never valid |
| CaSocialInsurance.PrefixExamples | src/nationalid/ca/social_insurance.js:71-75 | '666-666-666' and '900-000-000' are not valid |
| CaSocialInsurance.FormatExamples | src/nationalid/ca/social_insurance.js:4 | without the dashes, or with other separators, the number is not valid |
| IrlPpsNumber.LetterValue | src/nationalid/irl/pps_number.js:73-81 | A..I are 1..9, L..N 10..12, P..W 13..20; exactly J, K, O and letters outside A..W are 0 |
| IrlPpsNumber.LetterValueInjective | src/nationalid/irl/pps_number.js:75-79 | two letters with the same nonzero value are the same letter |
| IrlPpsNumber.Checksum | src/nationalid/irl/pps_number.js:49-71 | the loop's answer: the format holds and the digits weighted 1..7 plus eight times the check letter's value are a multiple of 23 |
| IrlPpsNumber.SecondLetterIrrelevant | src/nationalid/irl/pps_number.js:4 | appending a second letter A..I keeps the format and does not change the checksum |
| IrlPpsNumber.CheckLetterUnique | src/nationalid/irl/pps_number.js:66-70 | for given digits at most one check letter with a value passes |
| IrlPpsNumber.ParseAsWritten | src/nationalid/irl/pps_number.js:27-47 | a record exactly when the checksum passes, with the number, the seven digits, the check letter and the second letter or None |
| IrlPpsNumber.ValidateAsWritten | src/nationalid/irl/pps_number.js:20-71 | as written, valid exactly when the format holds and the weighted digits plus eight times the letter's value are a multiple of 23 |
| IrlPpsNumber.SkippedLettersAcceptedAsWritten | src/nationalid/irl/pps_number.js:67-80 | as written, a check letter J, K or O is accepted exactly when the weighted digits alone are a multiple of 23 |
| IrlPpsNumber.Parse | src/nationalid/irl/pps_number.js:27-81 | the corrected parse gives the same record, and only for check letters other than J, K and O |
| IrlPpsNumber.Validate | src/nationalid/irl/pps_number.js:20-81 | the corrected validation: the checksum holds and the check letter is not one of J, K, O |
| IrlPpsNumber.ValidateCorrection | src/nationalid/irl/pps_number.js:20-25 | the corrected validation is the one as written minus the numbers with check letter J, K or O |
| IrlPpsNumber.LetterValueExamples | src/nationalid/irl/pps_number.js:75-80 | A is 1, B 2, T 17, W 20, and J, K, O are 0 |
| IrlPpsNumber.ChecksumExamples | src/nationalid/irl/pps_number.js:49-71 | '1234567T' and '1234567TA' pass and '1234567A' does not |
| IrlPpsNumber.ParseExamples | src/nationalid/irl/pps_number.js:27-47 | '1234567T' and '1234567TA' parse to their fields, the second with second letter 'A' |
| IrlPpsNumber.RejectedTestVector | src/nationalid/irl/pps_number.js:49-71 | '9876543W' (a test vector) and '9876543A' fail the checksum |
| IrlPpsNumber.SkippedLetterExample | src/nationalid/irl/pps_number.js:67-80 | '0000000J' is accepted as written and rejected by the correction |
| IrlPpsNumber.FormatExamples | src/nationalid/irl/pps_number.js:4 | too short, too long, lower-case, letter X, second letter J, dashed and empty inputs do not have the format |
| EspDni.MagicLettersShape | src/nationalid/esp/dni.js:1 | the table has 23 different entries: every upper-case letter except I, O and U |
| EspDni.CheckLetter | src/nationalid/esp/dni.js:14-15 | the letter at index n mod 23 always exists and is never I, O or U |
| EspDni.CheckLetterDetermines | src/nationalid/esp/dni.js:14-15 | two numbers have the same check letter exactly when they agree modulo 23 |
| EspDni.Validate | src/nationalid/esp/dni.js:8-16 | true exactly when the input is eight digits and an upper-case letter that is the check letter of the digits' value |
| EspDni.OneLetterPerNumber | src/nationalid/esp/dni.js:14-15 | for given digits no two letters both validate |
| EspDni.LetterOfCongruentNumbers | src/nationalid/esp/dni.js:14-15 | a number congruent modulo 23 to a valid one is valid exactly with the same letter |
| EspDni.FirstExample | src/nationalid/esp/dni.js:8-16 | '12345678Z' is valid and '12345678A' is not |
| EspDni.SecondExample | src/nationalid/esp/dni.js:8-16 | '10469226V' is valid |
| EspDni.TooShortExample | src/nationalid/esp/dni.js:9 | '1234567A' does not have the format |
| LuxNationalNumber.Checksum | src/nationalid/lux/national_number.js:66-80 | true exactly when the input is thirteen digits whose check value lies in 1..97 and completes the eleven-digit base to a multiple of 97 |
| LuxNationalNumber.Decode | src/nationalid/lux/national_number.js:38-63 | the record of a well-formed number: number, serial, year, month and day from the digits, the birth-date text of those, female exactly for an even serial |
| LuxNationalNumber.OutOfRangeChecksRejected | src/nationalid/lux/national_number.js:76-79 | check digits 00, 98 and 99 never pass |
| LuxNationalNumber.CheckDigitsUnique | src/nationalid/lux/national_number.js:76-79 | two passing numbers with the same base digits have the same check value |
| LuxNationalNumber.Parse | src/nationalid/lux/national_number.js:27-64 | a record exactly when the checksum passes, the month is 1..12 and the day 1..31; number, serial, year, month, day and birth-date text from the digits; female exactly for an even serial |
| LuxNationalNumber.Validate | src/nationalid/lux/national_number.js:20-64 | valid exactly when the checksum passes, the month field is 1..12 and the day field 1..31 |
| LuxNationalNumber.BirthDateOfParse | src/nationalid/lux/national_number.js:49 | for years from 1000 on, the birth-date text is 'yyyy-mm-dd' spelling the parsed year, month and day |
| LuxNationalNumber.ChecksumByValues | src/nationalid/lux/national_number.js:76-79 | the checksum holds exactly when 97 minus the base's remainder is the check value |
| LuxNationalNumber.ParseExample | src/nationalid/lux/national_number.js:27-64 | '1990010100156' is a man born 1990-01-01 with serial '001' |
| LuxNationalNumber.BirthDateTextExample | src/nationalid/lux/national_number.js:49 | the birth-date text of 1990, 1, 1 is '1990-01-01' |
| LuxNationalNumber.RejectedTestVector | src/nationalid/lux/national_number.js:66-80 | the test vector '1990010100197' fails the checksum |
| LuxNationalNumber.FemaleExample | src/nationalid/lux/national_number.js:52-53 | '1990010200225', with even serial '002', is a woman |
| LuxNationalNumber.MonthZeroExample | src/nationalid/lux/national_number.js:45-47 | '1990000100149' passes the checksum but month 00 is rejected |
| LuxNationalNumber.FormatExamples | src/nationalid/lux/national_number.js:4 | too short, lettered, dashed and empty inputs are not valid |
| GbrNationalInsurance.CheckPrefix | src/nationalid/gbr/national_insurance.js:5-15 | accepted exactly when no character is D, F, I, Q, U or V, the second is not O, and the prefix is not BG, GB, NK, KN, TN, NT or ZZ |
| GbrNationalInsurance.PrefixSwap | src/nationalid/gbr/national_insurance.js:13-14 | the unallocated list is closed under swapping, so swapping the letters of an accepted prefix keeps it accepted unless that puts O second |
| GbrNationalInsurance.CheckSuffix | src/nationalid/gbr/national_insurance.js:17-20 | accepted exactly when the suffix is one of the letters A, B, C, D, F, M, P |
| GbrNationalInsurance.Validate | src/nationalid/gbr/national_insurance.js:39-46 | true exactly when the input is two letters, six digits and a letter, the prefix letters are allowed and allocated, and the suffix is allowed |
| GbrNationalInsurance.ValidExamples | src/nationalid/gbr/national_insurance.js:39-46 | 'AB123456A' and 'AA012344B' are valid |
| GbrNationalInsurance.InvalidExamples | src/nationalid/gbr/national_insurance.js:5-20 | 'AD123456A', 'BO012344B', 'GB012344B' and 'AB111111G' are not |
| RusSnils.Groups | src/nationalid/rus/snils.js:4 | the four groups, separators dropped, are eleven digits |
| RusSnils.CheckNumber | src/nationalid/rus/snils.js:63-75 | the check number is at most 99: the weighted sum modulo 101, with 100 read as 0; a sum below 100 is its own check number |
| RusSnils.Checksum | src/nationalid/rus/snils.js:47-78 | the loop's answer: the layout matches and the check part's value is the check number of the nine base digits weighted 9..1 |
| RusSnils.CheckNumberUnique | src/nationalid/rus/snils.js:54-77 | two numbers with the same base digits but different check parts are not both valid |
| RusSnils.Parse | src/nationalid/rus/snils.js:27-45 | a record exactly when the checksum passes, holding the number and the four groups joined |
| RusSnils.Validate | src/nationalid/rus/snils.js:20-45 | valid exactly when the format holds and the last two digits are the check number of the first nine |
| RusSnils.CleanNumberIsStripped | src/nationalid/rus/snils.js:43 | the clean number is the input with its '-' and whitespace removed: eleven digits |
| RusSnils.GroupsUndelimited | src/nationalid/rus/snils.js:4 | eleven bare digits match the layout as themselves |
| RusSnils.ValidExample | src/nationalid/rus/snils.js:47-78 | '12345678964' passes: 165 reduces to 64 |
| RusSnils.RejectedTestVector | src/nationalid/rus/snils.js:47-78 | the test vector '12345678901' fails |
| RusSnils.ParseExample | src/nationalid/rus/snils.js:27-45 | '123-456-789 64' parses with clean number '12345678964' |
| RusSnils.CheckNumberEdges | src/nationalid/rus/snils.js:63-75 | 99 stays 99; 100, 101, 201 and 202 give 0; 102 gives 1 |
| NzlIrdNumber.Padded | src/nationalid/nzl/ird_number.js:51 | padding a well-formed number gives nine digits |
| NzlIrdNumber.CheckDigitFor | src/nationalid/nzl/ird_number.js:62-71 | no check digit exactly for remainder 1; otherwise a digit that makes the weighted sum plus the digit a multiple of 11 |
| NzlIrdNumber.CheckDigitForComplete | src/nationalid/nzl/ird_number.js:62-71 | any digit completing the sum to a multiple of 11 is the check digit (so remainder 1 has none) |
| NzlIrdNumber.CheckDigitMeaning | src/nationalid/nzl/ird_number.js:44-74 | a well-formed number passes exactly when its last padded digit completes the 3,2,7,6,5,4,3,2-weighted sum to a multiple of 11 |
| NzlIrdNumber.Checksum | src/nationalid/nzl/ird_number.js:44-74 | the loop's answer is that check |
| NzlIrdNumber.LeadingZeroIrrelevant | src/nationalid/nzl/ird_number.js:51 | an eight-digit number and the same number with a leading 0 pass or fail together |
| NzlIrdNumber.Parse | src/nationalid/nzl/ird_number.js:27-42 | a record holding the number exactly when the checksum passes |
| NzlIrdNumber.Validate | src/nationalid/nzl/ird_number.js:20-42 | valid exactly when the format holds and the last digit of the padded number is the check digit the weights give |
| NzlIrdNumber.ValidExample | src/nationalid/nzl/ird_number.js:44-74 | '49091850' passes: its sum 154 is a multiple of 11 |
| NzlIrdNumber.RejectedTestVector | src/nationalid/nzl/ird_number.js:44-74 | the test vector '12345678' fails: 106 asks for check digit 4 |
| NzlIrdNumber.RemainderOneExample | src/nationalid/nzl/ird_number.js:67-68 | '13641013' followed by any digit fails: its sum 89 leaves 1 |
| Calendar.DaysInMonth | src/nationalid/egy/national_id.js:37-41 | months have 28 to 31 days; February has 29 exactly in leap years; the 30-day months are April, June, September and November |
| Calendar.DaysInYear | src/nationalid/lka/national_id.js:43-44 | a year has 366 days exactly when it is a leap year, else 365 |
| Calendar.UtcYear | src/nationalid/egy/national_id.js:37 | `Date.UTC` reads years 0..99 as 1900..1999 and keeps every other year |
| Calendar.DayOfYear | src/nationalid/lka/national_id.js:43-44 | the zero-based day of the year of a date is below the year's length |
| Calendar.DateOfYearDay | src/nationalid/lka/national_id.js:43-44 | each zero-based day of a year is a valid date of that year with that day number |
| Calendar.DayOfYearInjective | src/nationalid/lka/national_id.js:43-44 | two valid dates of the same year with the same day number are equal |
| Calendar.DateOfYearDayOfYear | src/nationalid/lka/national_id.js:43-44 | counting days back from a date's day number gives the date again |
| Calendar.AddDays | src/nationalid/lka/national_id.js:43-44 | January 1 moved by k days is a valid date: day number k of the same year when k is inside it, the matching day of the year before for k down to minus that year's length, and of the year after for k up to the two years' lengths; further out, earlier or later years |
| Calendar.AddDaysMinusOne | src/nationalid/lka/national_id.js:44 | one day before January 1 is December 31 of the year before |

## Where the test files and the code disagree

The model follows the code. The lemmas named below state what the code does with each listed
vector.

- est/isikukood.js: the code gives '3900101000' the check digit 0, so the test file's valid
  '39001010002' fails (`EstIsikukood.CheckDigitOf3900101000`).
- twn/national_id.js: 'B287654321', 'F131234567', 'N213456789' and 'Z123456789' fail the
  checksum (`TwnNationalId.RejectedTestVector` works through 'B287654321').
- mex/curp.js: the test file's CURPs have 19 characters. REGEXP admits exactly 18, so the code
  rejects them all.
- kor/rrn.js and lva/personas_kods.js: every test vector fails the code's checksum
  (`KorRrn.RejectedTestVector`, `LvaPersonasKods.RejectedTestVector`).
- sgp/nric.js: 'T9876543A', 'G9876543K' and 'M1234567K' fail (`SgpNric.RejectedTestVector`).
  In the code the T and G tables are the S and F tables rotated by four places
  (`SgpNric.TablesRotated`), on top of the offset 4 already added to the sum. The model keeps the
  tables as written.
- rus/snils.js: '12345678901' fails, because its check number is 64 (`RusSnils.RejectedTestVector`).
- nzl/ird_number.js: '12345678', '123456789', '987654321' and '136410132' fail
  (`NzlIrdNumber.RejectedTestVector`, `NzlIrdNumber.RemainderOneExample`).
- irl/pps_number.js: '9876543W', '0123456A', '5555555P' and '0000001W' fail
  (`IrlPpsNumber.RejectedTestVector`). '9876543WH' fails with '9876543W', because a second
  letter does not enter the sum (`IrlPpsNumber.SecondLetterIrrelevant`).
- lux/national_number.js: every test vector fails. For example, '1990010100197' would need the
  check digits 56 (`LuxNationalNumber.RejectedTestVector`).
- hu/szemelyi_szam.js: the code decodes month fields 21..32 as women of the 1900s. It decodes
  1..12 as the 2000s, so its second 21..32 branch can never be reached
  (`HuSzemelyiSzam.SecondBranchUnreachable`, `HuSzemelyiSzam.NoWomenOfThe2000s`). The model
  keeps these labels.
- util.js `ean13Digit` doubles the even positions, where the EAN-13 standard triples them. The
  model follows the code, which its test file also asserts.

## Left out

- src/index.js dispatch, src/nationalid/constant.js, the `METADATA` records and `aliasOf`: glue
  and metadata with no computation.
- The country files outside this core:
  - the stub checksums that always return true (at, be, bg, dk, fi, ar);
  - the validators that are a regular expression only;
  - pl/pesel.js, whose century branches assign to a `const` and throw;
  - the remaining weighted-modulus and Luhn countries.
- Regular-expression matching in general. Each format is a predicate written for that format.
- `validateRegexp` throws a `TypeError` for non-string arguments. Every model input is a string,
  so this case does not arise.
- `Gender.UNKNOWN` is `undefined`. Records whose gender would always be unknown have no gender
  field.
- JavaScript `Date` objects. The model uses calendar arithmetic (month lengths, leap years,
  `Date.UTC` reading years 0..99 as 1900..1999, day offsets from January 1). Parsed dates are
  `Calendar.Date` values or 'yyyy-mm-dd' strings, not `Date` instances.
- `Number()` and `parseInt` on non-digit text (NaN). Arithmetic is reached only with digits that
  matched a format. The numbers here are far below 2^53, so JavaScript's doubles hold them
  exactly and the model uses unbounded integers.
- FraInsee.Parse: `parse('')` throws in the source (`normalize` returns `null`); the model
  returns None.
- NationalIdUtil.WeightedModulusDigit: requires a positive divider. JavaScript would return NaN
  for 0, and every caller passes 10 or 11.
- NationalIdUtil.MnModulusDigit: requires positive m and n. Every caller passes 10 and 11.
- ItaFiscalCode.ExtractBirthday: requires alphanumeric year and day fields. `parse` calls it only
  after REGEXP has matched.
- FraInsee.ValidateBirthDepartment: requires the five-character department-and-commune group.
  `parse` calls it only with that regex group.
- ThaNationalId.CheckDistrictCode: requires a digit district. It is called only after the format
  matched.
- SgpNric.CheckLetters: requires one of the prefixes S, T, F, G, M. Those are the only prefixes
  REGEXP admits.
- ChnResidentId.CheckValueOf: requires a value in 0..10. It is always applied to a remainder
  modulo 11.
- MexCurp.CenturyYear: requires a two-digit year, which is what the format supplies.
- TurNationalId.DigitTenAsWritten: defined on well-formed numbers only. On other strings
  `checksum` produces 'NaN' text, and `validate` never reaches it with such strings.
- TurNationalId.DigitEleven: defined on well-formed numbers only, for the same reason.
- DeuTaxId.Sort: `sort()` compares UTF-16 strings. On digit characters that is numeric order,
  and only digits are sorted, so the model sorts by character code.

## Findings

| source | as written | input that shows it | evidently intended | confidence | as-written member | corrected member |
|---|---|---|---|---|---|---|
| src/nationalid/fra/insee.js:44 | `String(checksum) !== control_key` compares the unpadded key text with the two-character control key, so keys 1..9 never match | '255081416805409' (key 9, control key '09') is rejected | a control key whose value is the key is accepted | high; not executed | FraInsee.ParseAsWritten, FraInsee.SmallKeyRejectedAsWritten | FraInsee.Parse, FraInsee.SmallKeyAccepted |
| src/nationalid/tur/national_id.js:33 | digit ten is JavaScript's truncating `%` of the 7/-1 weighted sum; a negative sum gives text such as '-9', which never equals a digit | '19090909018' (weighted sum -29) meets both check-digit rules and is rejected | digit ten is the weighted sum modulo 10 taken non-negative | medium; not executed | TurNationalId.ValidateAsWritten, TurNationalId.NegativeTotalRejectedAsWritten, TurNationalId.NegativeTotalExample | TurNationalId.Validate, TurNationalId.AsWrittenAgrees |
| src/nationalid/irl/pps_number.js:66-80 | the check letters J, K and O, admitted by REGEXP, get the value 0, so they pass whenever the weighted digits alone are a multiple of 23 | '0000000J' is accepted | check letters without a value (skipped, per the comment at line 66) are rejected | medium; not executed | IrlPpsNumber.ParseAsWritten, IrlPpsNumber.SkippedLettersAcceptedAsWritten, IrlPpsNumber.SkippedLetterExample | IrlPpsNumber.Parse, IrlPpsNumber.ValidateCorrection |
