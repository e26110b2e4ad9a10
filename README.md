# Local VAT validation of vies-dotnet, in Dafny

This project models the part of the vies-dotnet library that decides locally
whether a European VAT number is well formed, with no call to the VIES web
service:

- `ViesManager.SplitInput` sanitizes a combined string such as `de136695976`
  and splits it into a two-letter country code and the number.
- `ViesManager.IsValid(countryCode, vatNumber)` first consults the exclusion
  table (Great Britain, since Brexit). It then finds the country's validator
  through a memo cache keyed case-insensitively, and returns that
  validator's verdict. `IsValid(vat)` splits first, then does the same.
- Each validator matches the number against its country's pattern. Only on
  a match does it run its checksum (`OnValidate`). Six validators are
  modelled: Cyprus, Italy, the Czech Republic, Romania, Germany and Croatia.

Layout, one module per file:

- `Wrappers.dfy`: `Option` and `Result`, used where the source returns null
  or throws.
- `Text.dfy`: digit and string helpers that stand for `ToInt`, `int.Parse`,
  `Sum`, `PadLeft`, `Trim`, `ToUpperInvariant` and `Sanitize`, over ASCII.
- `Results.dfy`: `VatValidationResult`, its failure reasons, and the
  exclusion entry.
- `Iso7064.dfy`: the ISO/IEC 7064 MOD 11,10 product step that the German
  and Croatian validators share.
- `CyVatValidator.dfy`, `ItVatValidator.dfy`, `CzVatValidator.dfy`,
  `RoVatValidator.dfy`, `DeVatValidator.dfy`, `HrVatValidator.dfy`: one per
  validator.
- `Validators.dfy`: the table of countries and the `VatValidator` class,
  whose `Validate` runs the pattern and then the checksum.
- `Vies.dfy`: the `ViesManager` façade, with its cache as a class over a
  `map`.

Some validators update local variables in loops: CY, IT, DE and HR. Each of
these is a method with a loop. Its invariant ties the running total to a
recursive specification function, and the method is proved to return that
function's verdict. The CZ and RO checks are straight-line code in the
source, so they are functions. The static validator dictionary becomes the
`validators` field of a `ViesManager` object.

Helpers that `ViesManager.cs` and the validators call but that are not part
of this model are given the meaning they evidently have:

- `ToInt` is the distance from `'0'`.
- `Slice(a, n)` is the substring.
- `s.Sum(m)` is the sum of the digits under the weights `m`, each times its
  weight.
- `Sanitize` trims and upper-cases.
- `VatValidatorAbstract.Validate` matches the pattern and calls
  `OnValidate` only on a match.

## Model

| member | source | states |
|---|---|---|
| Text.DigitValue | src/vies-dotnet-api/Validators/DEVatValidator.cs:42 | `ToInt` of a digit lies in 0..9 |
| Text.NumberValue | src/vies-dotnet-api/Validators/CYVatValidator.cs:40 | `int.Parse` of n digits is below 10^n |
| Text.NumberValueZero | src/vies-dotnet-api/Validators/ITVatValidator.cs:40 | a digit string parses to 0 exactly when every digit is '0' (both directions) |
| Text.NumberValueTwo | src/vies-dotnet-api/Validators/CYVatValidator.cs:40 | two digits parse to 10·first + second |
| Text.NumberValueThree | src/vies-dotnet-api/Validators/ITVatValidator.cs:45 | three digits parse to 100·first + 10·second + third |
| Text.WeightedSum | src/vies-dotnet-api/Validators/CZVatValidator.cs:47 | `Sum(multipliers)`: the sum of digit value times weight over the positions of the weights (no contract of its own; see the two lemmas below and `CzVatValidator.SumIsWeighted`) |
| Text.WeightedSumOfPrefix | src/vies-dotnet-api/Validators/CZVatValidator.cs:47 | `Sum` reads only the characters under the weights, so equal prefixes give equal sums |
| Text.PadLeft | src/vies-dotnet-api/Validators/ROVatValidator.cs:47 | `PadLeft` keeps a long enough string and otherwise prefixes pad characters up to the width, keeping the string as its tail |
| Text.LeadingZerosAddNothing | src/vies-dotnet-api/Validators/ROVatValidator.cs:47-49 | leading '0's contribute nothing: the digits are weighted by the right-hand end of the weights |
| Text.IsNullOrWhiteSpace | src/vies-dotnet-api/ViesManager.cs:186 | `string.IsNullOrWhiteSpace`: every character is whitespace, the empty string included (no contract of its own; `Trim`, `Sanitize` and `SplitInput` are stated through it) |
| Text.Trim | src/vies-dotnet-api/ViesManager.cs:184 | `Trim` yields a slice `s[lo..hi]` with only whitespace before `lo` and after `hi`, with no whitespace at either end of its own, empty exactly for all-whitespace input |
| Text.TrimUnique | src/vies-dotnet-api/ViesManager.cs:184 | any slice with only whitespace around it and none at its own ends is the result of `Trim`, so the contract of `Trim` pins its result down |
| Text.Sanitize | src/vies-dotnet-api/ViesManager.cs:184 | the sanitized string is the upper-cased slice `Upper(vat[lo..hi])` with only whitespace around it; it is upper case, has no whitespace at its ends, and is empty exactly when the input is null-or-whitespace |
| Text.SanitizeKeepsCleanInput | src/vies-dotnet-api/ViesManager.cs:184 | input that is already trimmed and upper-case is left as it is |
| Text.SanitizeUpperCases | src/vies-dotnet-api/ViesManager.cs:184 | input with no whitespace at its ends is only upper-cased |
| Text.UpperChar | src/vies-dotnet-api/ViesManager.cs:45 | `char.ToUpperInvariant` over ASCII moves 'a'..'z' to the same place in 'A'..'Z', keeps every other character, and keeps whitespace whitespace |
| Text.Upper | src/vies-dotnet-api/ViesManager.cs:45 | `ToUpperInvariant` keeps the length and upper-cases each character on its own |
| Text.UpperPrefix | src/vies-dotnet-api/ViesManager.cs:196 | a prefix of an upper-case string is upper case |
| Text.UpperIdempotent | src/vies-dotnet-api/ViesManager.cs:45 | `ToUpperInvariant` applied twice equals applied once |
| Text.UpperAppend | src/vies-dotnet-api/ViesManager.cs:196-197 | upper-casing commutes with splitting the string into code and number |
| Text.UpperKeepsDigits | src/vies-dotnet-api/ViesManager.cs:184 | upper-casing leaves a digit string unchanged |
| Iso7064.Step | src/vies-dotnet-api/Validators/DEVatValidator.cs:42-48 | one product step maps a product in 1..10 and a digit to a product in 1..10 (the loop invariant) |
| Iso7064.Product | src/vies-dotnet-api/Validators/DEVatValidator.cs:39-49 | the product after any number of steps from 10 stays in 1..10 |
| Iso7064.ProductOfPrefix | src/vies-dotnet-api/Validators/HRVatValidator.cs:38-48 | one more digit advances the product by exactly one step |
| CyVatValidator.Substitute | src/vies-dotnet-api/Validators/CYVatValidator.cs:50-72 | the substitution table 0→1, 1→0, 2→5, 3→7, 4→9, d→2d+3 yields 0..21 |
| CyVatValidator.Term | src/vies-dotnet-api/Validators/CYVatValidator.cs:48-74 | a term is at most 21 at even positions and at most 9 at odd ones |
| CyVatValidator.CheckSum | src/vies-dotnet-api/Validators/CYVatValidator.cs:45-75 | the sum of n terms is between 0 and 21·⌈n/2⌉ + 9·⌊n/2⌋, i.e. at most 120 for eight digits |
| CyVatValidator.CheckLetter | src/vies-dotnet-api/Validators/CYVatValidator.cs:77-78 | the expected character `65 + sum % 26` is always an upper-case letter A..Z |
| CyVatValidator.Verdict | src/vies-dotnet-api/Validators/CYVatValidator.cs:38-83 | the answer for a matching number: the 12 failure, else success exactly when the ninth character is the check letter (no contract of its own; `OnValidate` is proved equal to it and `RejectsTwelve`, `UniqueCheckLetter` are stated about it) |
| CyVatValidator.OnValidate | src/vies-dotnet-api/Validators/CYVatValidator.cs:38-83 | the loop over eight digits with its switch returns the verdict: failure for a leading 12, else success exactly when the ninth character is the check letter |
| CyVatValidator.RejectsTwelve | src/vies-dotnet-api/Validators/CYVatValidator.cs:40-43 | a number starting with 12 fails with "CY vat first 2 characters cannot be 12", whatever follows |
| CyVatValidator.UniqueCheckLetter | src/vies-dotnet-api/Validators/CYVatValidator.cs:77-82 | for eight leading digits not starting with 12, exactly one final letter is accepted |
| ItVatValidator.Fold | src/vies-dotnet-api/Validators/ITVatValidator.cs:57-59 | folding a weighted digit gives 0..9 and keeps its value modulo 9 |
| ItVatValidator.Term | src/vies-dotnet-api/Validators/ITVatValidator.cs:54-60 | each folded weighted term lies in 0..9 |
| ItVatValidator.FoldedSum | src/vies-dotnet-api/Validators/ITVatValidator.cs:52-60 | the sum of n folded terms lies in 0..9n |
| ItVatValidator.CheckDigit | src/vies-dotnet-api/Validators/ITVatValidator.cs:62-67 | the check digit lies in 0..9 and completes the sum to a multiple of 10 |
| ItVatValidator.Verdict | src/vies-dotnet-api/Validators/ITVatValidator.cs:37-73 | the answer for a matching number: zero prefix, then office code, then the check digit against the eleventh digit (no contract of its own; `OnValidate` is proved equal to it and the rejection and uniqueness lemmas are stated about it) |
| ItVatValidator.OnValidate | src/vies-dotnet-api/Validators/ITVatValidator.cs:37-73 | the `foreach` over the weights returns the verdict: zero prefix, office code, then check digit |
| ItVatValidator.RejectsZeroPrefix | src/vies-dotnet-api/Validators/ITVatValidator.cs:40-43 | seven leading zeros fail with an empty message, whatever follows |
| ItVatValidator.RejectsOfficeCode | src/vies-dotnet-api/Validators/ITVatValidator.cs:45-50 | digits 8–10 outside 1..201 and neither 888 nor 999 fail with an empty message |
| ItVatValidator.UniqueCheckDigit | src/vies-dotnet-api/Validators/ITVatValidator.cs:69-72 | once the prefix checks pass, exactly one eleventh digit is accepted |
| CyVatValidator.IsFirstDigit | src/vies-dotnet-api/Validators/CYVatValidator.cs:27 | the class `[0-59]` is every digit except 6, 7 and 8 |
| CyVatValidator.MatchesFormat | src/vies-dotnet-api/Validators/CYVatValidator.cs:27 | the pattern accepts nine characters: eight digits, the first not 6, 7 or 8, then an upper-case letter |
| ItVatValidator.MatchesFormat | src/vies-dotnet-api/Validators/ITVatValidator.cs:24 | the pattern accepts exactly eleven digits (no contract of its own) |
| ItVatValidator.IsOfficeCode | src/vies-dotnet-api/Validators/ITVatValidator.cs:47 | the office test admits exactly 1..201, 888 and 999 |
| RoVatValidator.MatchesFormat | src/vies-dotnet-api/Validators/ROVatValidator.cs:26 | the pattern accepts two to ten digits (no contract of its own) |
| DeVatValidator.MatchesFormat | src/vies-dotnet-api/Validators/DEVatValidator.cs:26 | the pattern accepts exactly the nine-digit strings whose first digit is not 0 |
| HrVatValidator.MatchesFormat | src/vies-dotnet-api/Validators/HRVatValidator.cs:23 | the pattern accepts exactly eleven digits (no contract of its own) |
| Validators.MatchesFormat | src/vies-dotnet-api/ViesManager.cs:118 | `Validate` checks the pattern of the validator's own country (no contract of its own; see `Validators.Verdict`) |
| CzVatValidator.MatchesFormat | src/vies-dotnet-api/Validators/CZVatValidator.cs:26 | the pattern accepts exactly the digit strings of length 8 to 13 |
| CzVatValidator.CheckOfSum | src/vies-dotnet-api/Validators/CZVatValidator.cs:49-59 | `11 - sum % 11` with 10→0 and 11→1 lies in 0..9 and equals `(11 - sum % 11) % 10` |
| CzVatValidator.CheckDigit | src/vies-dotnet-api/Validators/CZVatValidator.cs:47-59 | the check digit of an eight-digit number lies in 0..9 |
| CzVatValidator.OnValidate | src/vies-dotnet-api/Validators/CZVatValidator.cs:39-65 | lengths other than 8 succeed with no checksum; at length 8 success exactly when the eighth digit is the check digit; otherwise "Invalid CZ vat: checkValue" |
| CzVatValidator.SumIsWeighted | src/vies-dotnet-api/Validators/CZVatValidator.cs:47 | the sum is 8·d1 + 7·d2 + … + 2·d7 |
| CzVatValidator.UniqueCheckDigit | src/vies-dotnet-api/Validators/CZVatValidator.cs:61-64 | for seven leading digits exactly one eighth digit is accepted, and the check digit does not depend on it |
| RoVatValidator.PaddedBody | src/vies-dotnet-api/Validators/ROVatValidator.cs:41-47 | the digits before the control digit, left-padded with '0', are nine digits ending in the body |
| RoVatValidator.CheckOfSum | src/vies-dotnet-api/Validators/ROVatValidator.cs:51-56 | `sum * 10 % 11` with 10→0 lies in 0..9 |
| RoVatValidator.CheckDigit | src/vies-dotnet-api/Validators/ROVatValidator.cs:45-56 | the check digit lies in 0..9 |
| RoVatValidator.OnValidate | src/vies-dotnet-api/Validators/ROVatValidator.cs:39-62 | success exactly when the last digit is the check digit; otherwise "Invalid RO vat: checkValue" |
| RoVatValidator.PaddingAddsNothing | src/vies-dotnet-api/Validators/ROVatValidator.cs:47-49 | the padded sum equals the body weighted by the right-most weights of 7,5,3,2,1,7,5,3,2 |
| RoVatValidator.CheckDigitOfBody | src/vies-dotnet-api/Validators/ROVatValidator.cs:41-56 | the check digit is the weighted sum of the body alone, against the right-most weights |
| RoVatValidator.ControlDigitIrrelevant | src/vies-dotnet-api/Validators/ROVatValidator.cs:41-56 | the control digit placed after a body does not change its check digit |
| RoVatValidator.UniqueControlDigit | src/vies-dotnet-api/Validators/ROVatValidator.cs:58-61 | for every body of 1 to 9 digits exactly one control digit is accepted |
| DeVatValidator.CheckDigit | src/vies-dotnet-api/Validators/DEVatValidator.cs:51-54 | `11 - product` with 10→0 lies in 0..9 |
| DeVatValidator.Verdict | src/vies-dotnet-api/Validators/DEVatValidator.cs:37-61 | the answer for a matching number: success exactly when the ninth digit is the check digit of the first eight (no contract of its own; `OnValidate` is proved equal to it and `UniqueCheckDigit` is stated about it) |
| DeVatValidator.OnValidate | src/vies-dotnet-api/Validators/DEVatValidator.cs:37-61 | the eight-step loop keeps the product equal to `Product` of the digits read; success exactly when the ninth digit is the check digit |
| DeVatValidator.UniqueCheckDigit | src/vies-dotnet-api/Validators/DEVatValidator.cs:51-60 | for every eight leading digits exactly one ninth digit is accepted |
| DeVatValidator.ExampleProductHead | src/vies-dotnet-api/Validators/DEVatValidator.cs:39-49 | over 1366 the product reaches 3 |
| DeVatValidator.ExampleProduct | src/vies-dotnet-api/Validators/DEVatValidator.cs:39-49 | over 13669597 the product ends at 5 |
| DeVatValidator.AcceptsExample | src/vies-dotnet-api/Validators/DEVatValidator.cs:39-60 | 136695976 matches the pattern, its check digit is 6, and it is accepted |
| HrVatValidator.ExpectedLastDigit | src/vies-dotnet-api/Validators/HRVatValidator.cs:50-52 | for a product in 1..10 exactly one digit 0..9 makes `(product + digit) % 10 == 1` |
| HrVatValidator.Verdict | src/vies-dotnet-api/Validators/HRVatValidator.cs:34-56 | the answer for a matching number: success exactly when the product of the first ten digits plus the last digit is 1 mod 10 (no contract of its own; `OnValidate` is proved equal to it and `UniqueLastDigit` is stated about it) |
| HrVatValidator.OnValidate | src/vies-dotnet-api/Validators/HRVatValidator.cs:34-56 | the ten-step loop keeps the product equal to `Product`; success exactly when the last digit is the one that completes it to 1 |
| HrVatValidator.UniqueLastDigit | src/vies-dotnet-api/Validators/HRVatValidator.cs:50-52 | for every ten leading digits exactly one final digit is accepted |
| Validators.CountryCode | src/vies-dotnet-api/Validators/DEVatValidator.cs:27 | every validator's code is two upper-case characters |
| Validators.CountryCodeInjective | src/vies-dotnet-api/ViesManager.cs:45 | no two validators share a code |
| Validators.Verdict | src/vies-dotnet-api/ViesManager.cs:118 | `Validate` succeeds only when the number matched the country's pattern, and a number that does not match fails with the format failure |
| Validators.VatValidator.Validate | src/vies-dotnet-api/ViesManager.cs:118 | the validator answers `Verdict`: a format failure when the pattern does not match, the checksum's verdict otherwise |
| Vies.ExcludedCountry | src/vies-dotnet-api/ViesManager.cs:63-66 | the exclusion table holds exactly GB, matched whatever the case |
| Vies.Lookup | src/vies-dotnet-api/ViesManager.cs:44-50 | a code resolves to a country exactly when it is that country's code, ignoring case |
| Vies.LookupIgnoresCase | src/vies-dotnet-api/ViesManager.cs:35 | lookup and exclusion give the same answer for a code and its upper-case form |
| Vies.ExcludedHasNoValidator | src/vies-dotnet-api/ViesManager.cs:111-115 | an excluded code has no validator |
| Vies.SplitInput | src/vies-dotnet-api/ViesManager.cs:182-200 | null-or-whitespace raises "cannot be null or empty"; sanitized input under 3 characters raises "too short"; otherwise a 2-character code and a non-empty number whose concatenation is the sanitized input |
| Vies.Outcome | src/vies-dotnet-api/ViesManager.cs:109-119 | a success means the code is neither excluded nor unknown and the number matched its country's pattern |
| Vies.OutcomeOf | src/vies-dotnet-api/ViesManager.cs:94-99 | `IsValid(vat)` raises exactly when `SplitInput` does, with the same exception, and otherwise answers `IsValid` on the two parts of the sanitized input |
| Vies.SplitCodeIsUpper | src/vies-dotnet-api/ViesManager.cs:184-199 | the code cut from sanitized input is already upper case, so it is its own cache key |
| Vies.ExcludedFails | src/vies-dotnet-api/ViesManager.cs:111-114 | GB in any case fails with the exclusion entry, whatever the number |
| Vies.UnknownCodeFails | src/vies-dotnet-api/ViesManager.cs:115-117 | ZZ fails with "ZZ is not a valid ISO_3166-1 European member state." |
| Vies.OutcomeIgnoresCase | src/vies-dotnet-api/ViesManager.cs:111-117 | a known or excluded code gives the same verdict in any case; an unknown code fails with its message |
| Vies.SplitsCleanInput | src/vies-dotnet-api/ViesManager.cs:182-199 | input of 3 or more characters with no whitespace at its ends is upper-cased and split after two |
| Vies.SplitsCodeAndNumber | src/vies-dotnet-api/ViesManager.cs:196-199 | a code and a number written together split back into the upper-cased code and number |
| Vies.OutcomeOfCodeAndNumber | src/vies-dotnet-api/ViesManager.cs:94-99 | `IsValid(code + number)` answers `IsValid(Upper(code), Upper(number))` and does not raise |
| Vies.GermanNumberAccepted | src/vies-dotnet-api/ViesManager.cs:109-119 | `IsValid("DE", "136695976")` succeeds |
| Vies.GermanExample | src/vies-dotnet-api/ViesManager.cs:109-119 | `IsValid("de", "136695976")` succeeds, so the code's case does not matter |
| Vies.AtMostOncePerCountry | src/vies-dotnet-api/ViesManager.cs:35-56 | under the cache invariant no country is cached under two keys |
| Vies.ViesManager.constructor | src/vies-dotnet-api/ViesManager.cs:35 | the cache starts empty and satisfies its invariant |
| Vies.ViesManager.GetValidator | src/vies-dotnet-api/ViesManager.cs:37-57 | a hit returns the stored validator and leaves the cache unchanged; a miss on a known code adds exactly one fresh entry under that code; an unknown code yields null and leaves the cache unchanged |
| Vies.ViesManager.IsValidNumber | src/vies-dotnet-api/ViesManager.cs:109-119 | an excluded code fails with its entry and leaves the cache untouched; an unknown code fails with the member-state message; otherwise the answer is the country's `Validate`, now cached; entries are never removed or replaced, and the only key that can be added is the upper-cased code |
| Vies.ViesManager.IsValid | src/vies-dotnet-api/ViesManager.cs:94-99 | answers `OutcomeOf`; input that fails to split leaves the cache untouched; after a split, an excluded or unknown code leaves the cache untouched and a known code is cached under itself with its country; entries are never removed or replaced, and the only key that can be added is the split-off code |

## Left out

- `IsActive`, `IsActiveAsync`, `ViesService`, `XmlResponseParser`, `HttpClient`, `HttpClientProvider`, the constructors and `Dispose` (ViesManager.cs lines 59-87, 132-180, 202-208). They are network I/O, asynchronous code and SOAP/XML handling.
- Reflection in `GetValidator` (`Assembly.GetType`, `Activator.CreateInstance`). It is replaced by the table `Vies.Lookup` over the six modelled validators.
- `Vies.Lookup`: yields `None` for an unknown code. The source passes `throwOnError: true` at line 45, so there an unknown code raises a type-load exception and never reaches the null branch at lines 116-117. The model keeps that branch reachable, as a comment at `Lookup` notes.
- The validators of the other member states are not part of this model. A code such as `FR` therefore counts as unknown here.
- Thread safety of the static dictionary. The source takes no lock; the model treats the cache as single-threaded state.
- The .NET regex engine is not modelled:
  - each pattern is a predicate over ASCII;
  - `\d` is read as `0-9`, while .NET also admits other Unicode decimal digits;
  - `$` also matching before a final newline is not modelled;
  - the options and the 5-second timeouts are not modelled.
- Whitespace and upper case are ASCII only. `Sanitize` is read as trim plus upper-case. A fuller sanitizer that also strips separators inside the string is not modelled, because its code is not part of this model.
- `Validators.Verdict`: `FormatMismatch` stands for the failure text of `VatValidatorAbstract.Validate`, whose code is not part of this model.
- `Vies.Outcome`: `Excluded(info)` stands for the text of `ExcludedCountryInfo.ToString()`. Other failure texts are the literal strings of the source.
- Null strings. A Dafny string cannot be null, so `IsNullOrWhiteSpace` covers only empty and all-whitespace input.
- The cache is keyed by the upper-cased code. The source keys by the code as given, under an ordinal case-insensitive comparer, which is the same thing for ASCII codes.
