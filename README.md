# CreditCardRange in Dafny

A model of the CreditCardProcessing library's issuer-range registry. Each
`CreditCardRange` object describes one card issuer by four things:

- the issuer (a member of the `CreditCardType` enumeration);
- a list of number prefixes, parsed from a comma-separated specification such as `"34,37"` or `"51-55"`;
- the card lengths the issuer accepts;
- an active flag.

Every range registers itself in a process-wide list when it is constructed.
`ValidateCardNumber` asks each registered range how long a prefix of the
card number it recognises (`LengthIdentify`). It then returns the issuer of
the first range with the strictly greatest positive length, or `Unknown`.
A number of a length the range does not accept reports 0. So does a number
that fails the Luhn check digit (ISO/IEC 7812-1, Annex B) while the global
`UseLuhn` switch is on.

Modules, one file each:

- `Wrappers` (`wrappers.dfy`): `Option`, which stands in for C# `null`.
- `CardTypes` (`cardtypes.dfy`): the enumeration, its underlying values, identifiers and `Description` labels.
- `Text` (`text.dfy`): the .NET primitives the code relies on: `char.IsWhiteSpace`, `String.Trim`, `String.Split(char)`, `String.IsNullOrWhiteSpace`, `String.StartsWith`, `int.TryParse` and `Int32.ToString()`.
- `Luhn` (`luhn.dfy`): `VerifyCreditCardNumberByLuhn` as written, and a standard right-to-left Luhn definition it is proved equal to on digit strings.
- `Numbers` (`numbers.dfy`): the prefix list that the `Numbers` setter builds, as a function of the specification string, and the heap-free loop bodies the setter runs.
- `Matching` (`matching.dfy`): `LengthIdentify` and `ValidateCardNumber` as pure functions over a snapshot (`RangeState`) of each range.
- `CardRanges` (`ranges.dfy`): the imperative classes.
  - `Registry` holds the static `Ranges` list and the `UseLuhn` flag.
  - `CreditCardRange` holds one range's fields.
  - Each method is proved against the functions above.
- `Overflow` (`overflow.dfy`): the setter's loop with a 32-bit counter (see Findings).

The static members share one `Registry` object. The constructor, `LengthIdentify` and `ValidateCardNumber` take that object explicitly.

Two details of the code shape the model:

- The flag that `LengthIdentify` returns is ignored by `ValidateCardNumber`.
- The `-1` guards on the parsed bounds (CreditCardRange.cs:91) can never fire. `int.TryParse` stores 0 on failure, and a hyphen-split piece holds no `-`, so it is never negative. The length comparison on that line compares `low` with itself, so it is always false. Only `low > high` remains.

## Model

| member | source | states |
|---|---|---|
| CardRanges.Registry.constructor | CreditCardRange/CreditCardRange/CreditCardRange.cs:19-24 | the static list starts empty and the Luhn switch starts off |
| CardRanges.Registry.Clear | CreditCardRange/CreditCardRange/CreditCardRange.cs:184-187 | the list becomes empty; the switch is untouched |
| CardRanges.Registry.ValidateCardNumber | CreditCardRange/CreditCardRange/CreditCardRange.cs:194-211 | the loop over the registry returns `Classify` of the ranges' states: the fold that keeps a new issuer only on a strictly greater length |
| CardRanges.CreditCardRange.constructor | CreditCardRange/CreditCardRange/CreditCardRange.cs:29-36 | the new range is appended to the registry, earlier entries unchanged; it has issuer Unknown, a null name (the setter fills nothing for Unknown), no prefix list, is active, uses Luhn, has no lengths |
| CardRanges.CreditCardRange.IssuerAccepted | CreditCardRange/CreditCardRange/CreditCardRange.cs:121-127 | a range's issuer is accepted exactly when it is not Unknown |
| CardRanges.CreditCardRange.SetIssuer | CreditCardRange/CreditCardRange/CreditCardRange.cs:54-61 | the issuer is always stored; the name becomes the issuer's identifier exactly when the value is not Unknown and the name was null or blank, and is unchanged otherwise; after setting a known issuer the name is never null or blank |
| CardRanges.CreditCardRange.SetNumbers | CreditCardRange/CreditCardRange/CreditCardRange.cs:68-103 | the prefix list is replaced (never extended) by `ParseNumbers(value)`, whatever it held before |
| CardRanges.CreditCardRange.LengthIdentify | CreditCardRange/CreditCardRange/CreditCardRange.cs:151-179 | the reported length is `IdentifiedLength` of the range's state with the registry's switch; the flag is `RangeActive && IssuerAccepted`, which does not depend on the number |
| Luhn.VerifyCreditCardNumberByLuhn | CreditCardRange/CreditCardRange/CreditCardRange.cs:219-242 | the countdown loop returns `LuhnPasses`: the accumulated total modulo 10 (truncating) against (10 - last digit) % 10 |
| Luhn.NumericValue | CreditCardRange/CreditCardRange/CreditCardRange.cs:226 | an ASCII digit has its value; any other character -1 |
| Luhn.Contribution | CreditCardRange/CreditCardRange/CreditCardRange.cs:226-236 | a digit contributes a value in 0..9 whether doubled or not |
| Luhn.TruncRem | CreditCardRange/CreditCardRange/CreditCardRange.cs:241 | C#'s `%`, which truncates toward zero: a non-negative total gives the mathematical remainder, a negative one the negated remainder of its magnitude, and any remainder lies strictly between -10 and 10 |
| Luhn.SumFromIsRightSum | CreditCardRange/CreditCardRange/CreditCardRange.cs:223-239 | the loop total over indices i..len-2 equals that segment summed from the right with its rightmost character doubled and doubling alternating |
| Luhn.LuhnIsStandard | CreditCardRange/CreditCardRange/CreditCardRange.cs:219-242 | on a non-empty digit string the check passes iff total + last digit is a multiple of 10, iff the standard Luhn sum is a multiple of 10 |
| Luhn.AppendedDigit | CreditCardRange/CreditCardRange/CreditCardRange.cs:219-242 | appending digit d to a digit payload passes iff d completes the payload's weighted sum to a multiple of 10 |
| Luhn.CheckDigitExists | CreditCardRange/CreditCardRange/CreditCardRange.cs:219-242 | every digit payload has a final digit that makes it pass |
| Luhn.CheckDigitUnique | CreditCardRange/CreditCardRange/CreditCardRange.cs:219-242 | at most one final digit makes a digit payload pass |
| Luhn.RightSumNonNegative | CreditCardRange/CreditCardRange/CreditCardRange.cs:230-236 | the weighted sum of a digit string is never negative, so the truncating remainder is the mathematical one |
| Matching.LongestPrefix | CreditCardRange/CreditCardRange/CreditCardRange.cs:163-169 | the result is the greatest length of a listed prefix the number starts with (0 if none), and is at most the number's length |
| Matching.IdentifiedLengthSpec | CreditCardRange/CreditCardRange/CreditCardRange.cs:156-177 | 0 for an inactive range, for a length not accepted and, with the switch on, for a failed checksum; otherwise the longest match; never above the number's length; unaffected by the per-range `UsesLuhn` |
| Matching.SinglePrefixLength | CreditCardRange/CreditCardRange/CreditCardRange.cs:163-177 | a well-formed number that starts with a range's only prefix reports that prefix's length |
| Matching.ScanIsFirstLongest | CreditCardRange/CreditCardRange/CreditCardRange.cs:194-211 | the scan's length bounds every range's length, its issuer is Unknown when it is 0, and otherwise it is the issuer of the first range attaining it |
| Matching.ClassifyFirstLongest | CreditCardRange/CreditCardRange/CreditCardRange.cs:194-211 | the first range with the strictly greatest positive length gives the result |
| Matching.ClassifyNoMatch | CreditCardRange/CreditCardRange/CreditCardRange.cs:184-211 | when every length is 0, including an empty registry after Clear, the result is Unknown |
| Matching.LongerPrefixWins | CreditCardRange/CreditCardRange/CreditCardRange.cs:163-169 | of two ranges whose prefixes ("5" and "51") both begin the number, the longer prefix's issuer wins in either registration order |
| Matching.UnknownIssuerShadows | CreditCardRange/CreditCardRange/CreditCardRange.cs:204-208 | a strictly longest match by a range whose issuer is Unknown makes the result Unknown |
| Matching.ScanConcat | CreditCardRange/CreditCardRange/CreditCardRange.cs:199-209 | scanning a + b is scanning b from the result of scanning a |
| Matching.ZeroLengthIgnored | CreditCardRange/CreditCardRange/CreditCardRange.cs:204-208 | removing a range that reports 0 changes no result |
| Matching.InactiveIgnored | CreditCardRange/CreditCardRange/CreditCardRange.cs:156-160 | removing an inactive range changes no result |
| Matching.BadChecksumIsUnknown | CreditCardRange/CreditCardRange/CreditCardRange.cs:172 | with the switch on, a number failing the checksum is classified Unknown |
| Matching.GoodChecksumUnaffected | CreditCardRange/CreditCardRange/CreditCardRange.cs:172 | a number passing the checksum is classified the same with the switch on or off |
| Numbers.Decimals | CreditCardRange/CreditCardRange/CreditCardRange.cs:97-100 | low..high gives high-low+1 entries (none when reversed), entry k being the decimal string of low+k |
| Numbers.AppendRange | CreditCardRange/CreditCardRange/CreditCardRange.cs:97-100 | the inner loop appends exactly `Decimals(low, high)` to the list |
| Numbers.AppendToken | CreditCardRange/CreditCardRange/CreditCardRange.cs:80-100 | one pass of the outer loop appends exactly `ExpandToken(token)` |
| Numbers.ExpandToken | CreditCardRange/CreditCardRange/CreditCardRange.cs:80-100 | a trimmed token without a hyphen contributes exactly itself; a token with a hyphen contributes only digit strings |
| Numbers.ParseNumbers | CreditCardRange/CreditCardRange/CreditCardRange.cs:78-101 | no entry of the prefix list holds the comma that separates tokens |
| Numbers.CommaFreeEntries | CreditCardRange/CreditCardRange/CreditCardRange.cs:78-101 | the entries of the first t comma-free tokens are comma-free |
| Numbers.TokenCommaFree | CreditCardRange/CreditCardRange/CreditCardRange.cs:80-100 | a token without a comma contributes only entries without a comma |
| Numbers.SplitPieces | CreditCardRange/CreditCardRange/CreditCardRange.cs:80 | splitting `a-b` followed by a hyphen-led rest at each hyphen gives at least two pieces, the first `a` and the second `b` |
| Numbers.ParseNumbersConcat | CreditCardRange/CreditCardRange/CreditCardRange.cs:78-101 | tokens do not affect each other: `a,b` gives a's entries then b's |
| Numbers.ParseSingleToken | CreditCardRange/CreditCardRange/CreditCardRange.cs:78 | a comma-free specification is one token |
| Numbers.PlainToken | CreditCardRange/CreditCardRange/CreditCardRange.cs:80-86 | a hyphen-free token contributes itself, trimmed |
| Numbers.RangeToken | CreditCardRange/CreditCardRange/CreditCardRange.cs:80-100 | a token `a-b[-...]` contributes `Decimals(TryParse(a), TryParse(b))` when low <= high and nothing otherwise |
| Numbers.UnreadableLowReadsAsZero | CreditCardRange/CreditCardRange/CreditCardRange.cs:88-99 | `abc-5`: an unparsable low end reads as 0, so the token gives 0..n |
| Numbers.UnreadableHighDropsToken | CreditCardRange/CreditCardRange/CreditCardRange.cs:88-99 | `5-abc`: an unparsable high end reads as 0, so a positive low makes the token give nothing |
| Numbers.SingleValueToken | CreditCardRange/CreditCardRange/CreditCardRange.cs:88-100 | `n-n` with n up to int.MaxValue contributes exactly the one entry n |
| Numbers.ExtraPiecesIgnored | CreditCardRange/CreditCardRange/CreditCardRange.cs:80-90 | `1-3-9`: pieces after the second are ignored |
| Text.Decimal | CreditCardRange/CreditCardRange/CreditCardRange.cs:99 | `i.ToString()` of a non-negative value: non-empty digits denoting the value, no leading zero |
| Text.DecimalInjective | CreditCardRange/CreditCardRange/CreditCardRange.cs:99 | different values give different strings |
| Text.Split | CreditCardRange/CreditCardRange/CreditCardRange.cs:78-80 | at least one piece, no piece holds the separator, joining the pieces gives the input back |
| Text.SplitJoin | CreditCardRange/CreditCardRange/CreditCardRange.cs:78-80 | splitting a join of separator-free pieces returns those pieces |
| Text.SplitConcat | CreditCardRange/CreditCardRange/CreditCardRange.cs:78-80 | splitting a + sep + b gives a's pieces then b's |
| Text.Strip | CreditCardRange/CreditCardRange/CreditCardRange.cs:80 | the result has no white character at either end, is no longer than the input, holds only characters of the input, and is empty for all-white input |
| Text.StripIsSlice | CreditCardRange/CreditCardRange/CreditCardRange.cs:80 | the result is the contiguous slice of the input that starts right after its leading white characters, and only white characters follow it |
| Text.StripUntouched | CreditCardRange/CreditCardRange/CreditCardRange.cs:80 | a string with no white character at either end is unchanged |
| Text.WhiteSpaceClasses | CreditCardRange/CreditCardRange/CreditCardRange.cs:80 | `char.IsWhiteSpace`, which Trim removes, includes the white space int.TryParse skips and excludes digits, signs, the hyphen and the comma |
| Text.Trim | CreditCardRange/CreditCardRange/CreditCardRange.cs:80 | the trimmed string has no white space at either end |
| Text.TrimIdempotent | CreditCardRange/CreditCardRange/CreditCardRange.cs:80 | trimming a trimmed string changes nothing |
| Text.IsNullOrWhiteSpace | CreditCardRange/CreditCardRange/CreditCardRange.cs:57 | holds exactly for null and for a string that trims to the empty string |
| Text.StartsWith | CreditCardRange/CreditCardRange/CreditCardRange.cs:165 | holds exactly when the prefix is no longer than the string and agrees with it at every position |
| Text.TryParse | CreditCardRange/CreditCardRange/CreditCardRange.cs:89-90 | the value left is a 32-bit integer, non-negative for a string without `-` |
| Text.TryParseValue | CreditCardRange/CreditCardRange/CreditCardRange.cs:89-90 | after the skipped white space, digits with an optional `+` give their value and digits after `-` its negation, when it fits in 32 bits; a value that does not fit, and anything else, gives 0 (`"007"` is 7, `" 5 "` is 5, `"2147483648"` is 0) |
| Text.TryParseNonNumeric | CreditCardRange/CreditCardRange/CreditCardRange.cs:89-90 | a string starting with no sign, digit or white space leaves 0 |
| Text.TryParseDecimal | CreditCardRange/CreditCardRange/CreditCardRange.cs:89-90 | parsing the printed form of a value up to int.MaxValue gives the value back |
| CardTypes.Ordinal | CreditCardRange/CreditCardRange/CreditCardType.cs:17-150 | each member's underlying value is below 22, and it is 0 exactly for Unknown, the enumeration's default |
| CardTypes.FromOrdinal | CreditCardRange/CreditCardRange/CreditCardType.cs:17-150 | exactly the values 0..21 name a member |
| CardTypes.Name | CreditCardRange/CreditCardRange/CreditCardRange.cs:59 | the identifier stored as IssuerName is non-empty and starts with a capital letter, so it is never blank |
| CardTypes.Description | CreditCardRange/CreditCardRange/CreditCardType.cs:22-148 | every label is non-empty and starts with a capital letter |
| CardTypes.OrdinalRoundTrip | CreditCardRange/CreditCardRange/CreditCardType.cs:17-150 | the values 0..21 number the 22 members one to one |
| CardTypes.FromDescription | CreditCardRange/CreditCardRange/CreditCardType.cs:22-148 | the label lookup: a member returned carries the label asked for |
| CardTypes.FindLabelFinds | CreditCardRange/CreditCardRange/CreditCardType.cs:22-148 | searching the members in declaration order from any value up to t's finds t by its label |
| CardTypes.DescriptionRoundTrip | CreditCardRange/CreditCardRange/CreditCardType.cs:22-148 | every member's label leads back to that member |
| CardTypes.DescriptionInjective | CreditCardRange/CreditCardRange/CreditCardType.cs:22-148 | no two members share a label |
| CardTypes.NameDiffersFromDescription | CreditCardRange/CreditCardRange/CreditCardType.cs:22-29 | the identifier that fills IssuerName can differ from the label (`DCEnRoute` and "Diners Club enRoute"); Unknown's label is "Unknown Issuer" and AmEx's "American Express" |
| Overflow.Int32Inc | CreditCardRange/CreditCardRange/CreditCardRange.cs:97 | `i++` on an int wraps from int.MaxValue to int.MinValue and adds 1 otherwise |
| Overflow.MaxHighNeverExits | CreditCardRange/CreditCardRange/CreditCardRange.cs:97 | with high == int.MaxValue the 32-bit loop never ends, whatever the start |
| Overflow.WrappingTokenNeverEnds | CreditCardRange/CreditCardRange/CreditCardRange.cs:88-100 | the token `2147483647-2147483647` passes the guard and denotes the single entry "2147483647", but the 32-bit loop it starts never completes normally |
| Overflow.BelowMaxExits | CreditCardRange/CreditCardRange/CreditCardRange.cs:97 | with high below int.MaxValue the 32-bit loop ends after high - i + 1 increments |

## Left out

- The two static members become fields of one `Registry` object that is passed explicitly. Their lack of locking is not modelled; the model is sequential.
- CardRanges.CreditCardRange.SetNumbers: the list is built in a local variable and stored once complete. The source clears the private list and refills it in place. No other code can observe the list while the setter runs, so the two behave the same.
- CardRanges.CreditCardRange.SetNumbers: the model's counter is an unbounded integer. For a token whose high end is int.MaxValue, the source never completes normally (see Findings).
- `null` arguments are not modelled. Strings and the `Lengths` list are never null here. The source would throw on a null `Numbers` value, a null card number or a null `Lengths`.
- CardRanges.CreditCardRange.LengthIdentify requires that an active range's prefix list has been set, because the source throws on a null `RangeNumbers`. It also requires a non-empty number when the Luhn check would run, because the source throws `IndexOutOfRange` on an empty string.
- Properties without logic (`IssuerName`, `Lengths`, `RangeActive`, `UsesLuhn`, the `Issuer` getter) are plain fields.
- CardRanges.CreditCardRange.LengthIdentify: a Dafny string is a sequence of Unicode scalar values, while C#'s `Length` counts UTF-16 code units. A number holding a character outside the Basic Multilingual Plane has different lengths in the two (`"4😀"` has Length 3 in C# and 2 here), so the accepted-length test can differ for such input.
- Luhn.VerifyCreditCardNumberByLuhn: for the same reason, the source's loop visits each half of a surrogate pair as a separate `char`, which the model does not; for input within the Basic Multilingual Plane the two agree.
- `String.StartsWith` is culture-sensitive in .NET, and culture comparison can ignore some characters. The model compares character by character.
- `char.GetNumericValue` of a non-ASCII numeric character, such as another script's digit or a fraction, is taken as -1. The double-to-int conversion and the double remainder on line 241 are exact integer arithmetic here. For ASCII input they agree.
- The Luhn total is an unbounded integer. The source's `int` could only overflow on a number of more than 200 million ASCII characters. (A non-ASCII numeric character, such as U+2182 with numeric value 10000, contributes far more in the source; here it counts as -1, as noted above.)
- `int.TryParse` follows NumberStyles.Integer for ASCII input: surrounding white space, an optional sign, decimal digits, and 0 outside the 32-bit range. Culture-specific signs and trailing NUL characters are not modelled.
- `Enum.ToString()` and the `[Description]` attribute lookup work by reflection. They are replaced by the total functions `Name` and `Description`.
- There is no table of default ranges and no host application in these source files.

## Findings

| source | as written | input that shows it | evidently intended | confidence | as-written member | corrected member |
|---|---|---|---|---|---|---|
| CreditCardRange/CreditCardRange/CreditCardRange.cs:97 | `for (int i = low; i <= high; i++)` uses a 32-bit counter in unchecked arithmetic, so when high is int.MaxValue, `i <= high` always holds and `i` wraps to int.MinValue; the setter never completes normally, growing the list until it fails | the `Numbers` specification `"2147483647-2147483647"` | a list with the one entry `"2147483647"` | not executed | Overflow.WrappingTokenNeverEnds | Numbers.AppendRange |
