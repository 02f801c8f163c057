# MetForm to Laravel API relay, modelled in Dafny

The WordPress plugin `metform-to-laravel-api` relays each submission of one
MetForm form to a Laravel API. The submission hook queues an Action
Scheduler action holding the raw form data, unless an identical action is
already pending. When the action runs, it first obtains a bearer token:
either the one cached in two transients, or a fresh one from a login call.
It then maps the raw fields into the nested customer / loan payload the
API expects. The raw fields pass through the transformers for booleans,
dates, numbers and digits-only values. The payload is pruned of nulls and
empty arrays, checked for a customer NID, and posted to the create
endpoint. Finally the action is settled by the reply: it returns, or it
throws so that Action Scheduler retries it. A 401 reply also clears the
cached token.

The model covers all of that. Where the plugin works step by step, so
does the model:

- The token transients are a class, `Tokens.TokenStore`. Its methods set
  and delete them in place.
- The pending-action store is a class, `Intake.ActionQueue`, whose
  submission hook appends to it.
- The payload is built by methods that write fields into a skeleton and
  append to lists. These methods are proved equal to a pure description
  of the payload.

The transformers, the field accessor, the recursive filter, URL joining
and reply classification are pure functions. The plugin's inputs are
parameters:

- its configuration constants;
- the clock (`now`);
- the login and create replies;
- the two WordPress sanitizers.

Modules, one per file, in dependency order:

- `Options`, `Strings`, `Numeric`, `Calendar`, `Values`: PHP values and
  the pieces of PHP semantics the plugin relies on. These are trim,
  `is_numeric`, ASCII `strtolower`, `(string)`, `empty()`, truthiness, loose
  `==` and reading nested keys.
- `Transformers`: `mfla_to_bool`, `mfla_format_date`, `mfla_to_numeric` and
  the digits-only cleaner.
- `FieldAccess`: the `$get_value` closure.
- `Mapping`: the payload mapper.
- `Pruning`: `$array_filter_recursive`.
- `Checks`: what the NID guard and the empty-payload check see after
  pruning.
- `Delivery`: the create URL and the reply classification.
- `Tokens`: `mfla_get_laravel_api_token` and `mfla_login_to_laravel_api`.
- `Relay`: `mfla_process_action_scheduler_submission` as a whole.
- `Intake`: `mfla_handle_metform_submission`.

Where the plugin's comments and its code say different things, the model
follows the code:

- A login that cannot be attempted, because a constant is missing or
  empty, returns false and leaves both transients as they were. So does
  a login whose request fails in transport. Only a reply that does not
  grant a token deletes them.
- A submission with only a NID still posts more than the NID. It carries
  `marital_status` and `housing_type` as `'other'`, `terms` as `false`,
  and the constant loan details.
- The "payload is effectively empty" abort can never fire, because
  `terms` is always set (`Checks.SubmissionNeverEffectivelyEmpty`).
- A token granted with `expires_in` of 60 seconds or less is stored but
  never reused (`Tokens.ReuseWindow`).
- `mfla_to_bool("SÍ")` is false. `str_replace` only replaces the
  lower-case accented vowels, and byte-wise `strtolower` leaves `Í`
  alone (`Transformers.ToBoolUpperAccent`).

## Model

| member | source | states |
|---|---|---|
| Strings.TrimLeft | metform-to-laravel-api/metform-to-laravel-api.php:198 | the result is a suffix of the input; it starts with a character outside the class (or is empty); everything dropped is in the class |
| Strings.TrimRight | metform-to-laravel-api/metform-to-laravel-api.php:198 | the result is a prefix of the input; it ends with a character outside the class (or is empty); everything dropped is in the class |
| Strings.Trim | metform-to-laravel-api/metform-to-laravel-api.php:145 | PHP `trim`: no longer than the input, and it neither starts nor ends with a trimmed character |
| Strings.TrimNoop | metform-to-laravel-api/metform-to-laravel-api.php:145 | a string that neither starts nor ends with whitespace is left unchanged by `trim` |
| Strings.TrimBlank | metform-to-laravel-api/metform-to-laravel-api.php:289 | a string made only of whitespace trims to `""` |
| Strings.TrimSplit | metform-to-laravel-api/metform-to-laravel-api.php:145 | every string is whitespace + its trim + whitespace |
| Strings.TrimPadded | metform-to-laravel-api/metform-to-laravel-api.php:145 | trimming whitespace-padded text gives back the text |
| Strings.TrimLeftPadding | metform-to-laravel-api/metform-to-laravel-api.php:198 | left-trimming a padding of class characters in front of text that does not start with one gives the text |
| Strings.TrimRightPadding | metform-to-laravel-api/metform-to-laravel-api.php:198 | right-trimming a padding of class characters after text that does not end with one gives the text |
| Strings.Keep | metform-to-laravel-api/metform-to-laravel-api.php:198 | `preg_replace('/[^…]/', '')`: every character kept is in the class, and the result is no longer than the input |
| Strings.KeepAppend | metform-to-laravel-api/metform-to-laravel-api.php:198 | the filter distributes over concatenation |
| Strings.KeepAll | metform-to-laravel-api/metform-to-laravel-api.php:198 | a string made only of class characters is kept whole |
| Strings.KeepNone | metform-to-laravel-api/metform-to-laravel-api.php:198 | a string with no class character filters to `""` |
| Strings.KeepIdempotent | metform-to-laravel-api/metform-to-laravel-api.php:198 | filtering twice is filtering once |
| Strings.LowerAscii | metform-to-laravel-api/metform-to-laravel-api.php:145 | `strtolower`: same length, each character lower-cased on its own |
| Strings.StripAccents | metform-to-laravel-api/metform-to-laravel-api.php:145 | `str_replace(['á','é','í','ó','ú'], ['a','e','i','o','u'])`: same length, each character replaced on its own |
| Strings.DigitsValueAppend | metform-to-laravel-api/metform-to-laravel-api.php:207 | the value of the digits of a + b is value(a)·10^\|b\| + value(b) |
| Strings.IntToStringTrimmed | metform-to-laravel-api/metform-to-laravel-api.php:289 | the text of an integer has no surrounding whitespace |
| Strings.NatToStringDigits | metform-to-laravel-api/metform-to-laravel-api.php:207 | the decimal text of n is all digits and reads back as n |
| Numeric.DigitRun | metform-to-laravel-api/metform-to-laravel-api.php:201 | the longest all-digit prefix: it is all digits, and the next character (if any) is not a digit |
| Numeric.Scaled | metform-to-laravel-api/metform-to-laravel-api.php:207 | a numeral as an exact decimal: zero exactly when its digits are zero, negative exactly when signed and non-zero |
| Numeric.ScaledInt | metform-to-laravel-api/metform-to-laravel-api.php:207 | an integer numeral scales to the integer itself |
| Numeric.ScaledDecimal | metform-to-laravel-api/metform-to-laravel-api.php:207 | an unsigned decimal numeral with k fraction digits is m / 10^k |
| Numeric.IntToStringNumeric | metform-to-laravel-api/metform-to-laravel-api.php:140 | the text of every integer is numeric (`is_numeric`) and denotes that integer |
| Numeric.DecimalNumeric | metform-to-laravel-api/metform-to-laravel-api.php:201 | "whole.fraction" with digits on both sides is numeric, with the digits of both parts as mantissa and the fraction length as scale |
| Numeric.SecondPointRejected | metform-to-laravel-api/metform-to-laravel-api.php:201 | a string with a second '.' after "digits.digits" is not numeric |
| Numeric.NumericChars | metform-to-laravel-api/metform-to-laravel-api.php:140 | every character of a numeric string is a digit, sign, point, exponent letter or whitespace |
| Numeric.IsNumeric | metform-to-laravel-api/metform-to-laravel-api.php:140 | `is_numeric` (PHP 8 rules): a string is numeric when, after leading and trailing whitespace, it is a signed decimal with an optional exponent; it then uses only digits, signs, the point, exponent letters and whitespace |
| Calendar.DaysInMonth | metform-to-laravel-api/metform-to-laravel-api.php:165 | 28 to 31 days; 29 exactly for February of a leap year |
| Calendar.ValidDate | metform-to-laravel-api/metform-to-laravel-api.php:164-167 | a day of the calendar in a year 0000 to 9999, the dates the 'd-m-Y' round trip accepts; every such date is printable, and 29 February exists only in a leap year |
| Calendar.Pad2 | metform-to-laravel-api/metform-to-laravel-api.php:167 | the two-digit zero-padded rendering reads back as its value |
| Calendar.Pad4 | metform-to-laravel-api/metform-to-laravel-api.php:167 | the four-digit zero-padded rendering reads back as its value |
| Calendar.Pad2OfDigits | metform-to-laravel-api/metform-to-laravel-api.php:167 | two digits are the zero-padded rendering of their value |
| Calendar.Pad4OfDigits | metform-to-laravel-api/metform-to-laravel-api.php:167 | four digits are the zero-padded rendering of their value |
| Calendar.DmyText | metform-to-laravel-api/metform-to-laravel-api.php:167 | `format('d-m-Y')` of a printable date is 10 characters |
| Calendar.YmdText | metform-to-laravel-api/metform-to-laravel-api.php:168 | `format('Y-m-d')` of a printable date is 10 characters |
| Values.Lookup | metform-to-laravel-api/metform-to-laravel-api.php:289 | `$data[$key] ?? null`: a non-null result is the value of a field with that name; no such field gives null |
| Values.Get | metform-to-laravel-api/metform-to-laravel-api.php:523 | the value under a key is present exactly when some entry has that key, and it is that entry's value |
| Values.GetUnique | metform-to-laravel-api/metform-to-laravel-api.php:523 | with unique keys, the value under entry i's key is entry i's value |
| Values.LooseEqualsSymmetric | metform-to-laravel-api/metform-to-laravel-api.php:82 | PHP's `!=` between the target and a form id or name does not depend on the order of its operands |
| Values.LooseEquals | metform-to-laravel-api/metform-to-laravel-api.php:82 | PHP 8 loose `==` between scalars: booleans by truthiness, null equal to null, false, 0 and "" only, an int and a numeric string by value, two numeric strings by value, anything else as strings; every value equals itself |
| Values.IntEqualsItsText | metform-to-laravel-api/metform-to-laravel-api.php:82 | an integer form id and its decimal text compare equal both ways |
| Transformers.FormatDate | metform-to-laravel-api/metform-to-laravel-api.php:159-183 | the result is null or a 10-character string; non-strings give null |
| Transformers.DmyTextParts | metform-to-laravel-api/metform-to-laravel-api.php:163-168 | a rendered d-m-Y text survives the parse-and-reformat check exactly when it names a real date, and its parts re-ordered give the Y-m-d text |
| Transformers.FormatDateAccepts | metform-to-laravel-api/metform-to-laravel-api.php:159-169 | a real date written zero-padded as DD-MM-YYYY, with any surrounding whitespace, gives YYYY-MM-DD |
| Transformers.FormatDateSound | metform-to-laravel-api/metform-to-laravel-api.php:159-183 | a non-null result comes from a string whose trim is the DD-MM-YYYY text of a real date, and is that date's YYYY-MM-DD text |
| Transformers.FormatDateRefusesLiteral | metform-to-laravel-api/metform-to-laravel-api.php:167-182 | a trimmed string that does not round-trip through d-m-Y gives null |
| Transformers.FormatDateRejectsMissingDay | metform-to-laravel-api/metform-to-laravel-api.php:163-182 | "31-02-2024" gives null |
| Transformers.FormatDateRejectsUnpadded | metform-to-laravel-api/metform-to-laravel-api.php:163-182 | "1-02-2024" gives null |
| Transformers.FormatDateOfRendering | metform-to-laravel-api/metform-to-laravel-api.php:159-183 | for every printable day, month and year, the DD-MM-YYYY text gives YYYY-MM-DD if the date is real and null otherwise |
| Transformers.Normalize | metform-to-laravel-api/metform-to-laravel-api.php:145 | the normalised string is no longer than the input |
| Transformers.ToBool | metform-to-laravel-api/metform-to-laravel-api.php:135-150 | booleans come back unchanged; null is false |
| Transformers.NormalizeFirst | metform-to-laravel-api/metform-to-laravel-api.php:145 | the first normalised character is the accent-stripped, lower-cased form of some input character |
| Transformers.NormalizedNumericFirst | metform-to-laravel-api/metform-to-laravel-api.php:140-145 | a numeric string normalises to something that starts with a numeric character |
| Transformers.ToBoolAffirmative | metform-to-laravel-api/metform-to-laravel-api.php:143-147 | a string that normalises to "si", "yes" or "accepted" is true |
| Transformers.AffirmativeNotNumeric | metform-to-laravel-api/metform-to-laravel-api.php:140-147 | none of the affirmative words starts with a numeric character, so the numeric branch never shadows them |
| Transformers.ToBoolWord | metform-to-laravel-api/metform-to-laravel-api.php:143-147 | a non-numeric string is true exactly when it normalises to an affirmative word |
| Transformers.ToBoolIntText | metform-to-laravel-api/metform-to-laravel-api.php:140-141 | an integer, or its text, is true exactly when it is 1 |
| Transformers.ToBoolDecimal | metform-to-laravel-api/metform-to-laravel-api.php:140-141 | read as an exact decimal, "whole.fraction" is true exactly when 1 ≤ value < 2; the rounding to a double that comes before PHP's `(int)` is not modelled (see Left out) |
| Transformers.ToBoolAccentedYes | metform-to-laravel-api/metform-to-laravel-api.php:143-147 | " Sí " is true |
| Transformers.ToBoolUpperAccent | metform-to-laravel-api/metform-to-laravel-api.php:143-147 | "SÍ" is false: the upper-case accent is neither replaced nor lower-cased |
| Transformers.NotNumericStart | metform-to-laravel-api/metform-to-laravel-api.php:140 | a string starting with a character that cannot occur in a numeric string is not numeric |
| Transformers.ToNumeric | metform-to-laravel-api/metform-to-laravel-api.php:193-208 | the result is null, an int or a decimal; null input gives null |
| Transformers.NumberOf | metform-to-laravel-api/metform-to-laravel-api.php:201-207 | null exactly when the cleaned string is not numeric; a decimal exactly when it is numeric and contains '.', an int otherwise |
| Transformers.CleanedIsTrimmed | metform-to-laravel-api/metform-to-laravel-api.php:198 | a string made only of digits, '.' and '-' is its own trim |
| Transformers.ToNumericIgnoresNoise | metform-to-laravel-api/metform-to-laravel-api.php:195-207 | currency symbols, spaces, commas and any other character outside digits, '.' and '-' make no difference to the result |
| Transformers.NoNumberChars | metform-to-laravel-api/metform-to-laravel-api.php:195-203 | input with no digit, '.' or '-' gives null, as `""` does |
| Transformers.SomeNumberChars | metform-to-laravel-api/metform-to-laravel-api.php:195-207 | otherwise the result is the result on the cleaned string |
| Transformers.KeepOfTrim | metform-to-laravel-api/metform-to-laravel-api.php:198 | cleaning the trimmed input is cleaning the input |
| Transformers.ToNumericOfCleaned | metform-to-laravel-api/metform-to-laravel-api.php:201-207 | on an already-clean non-empty string the result is decided by `is_numeric` and the presence of '.' |
| Transformers.ToNumericInt | metform-to-laravel-api/metform-to-laravel-api.php:193-207 | an integer, or its text, gives that integer |
| Transformers.ToNumericDecimal | metform-to-laravel-api/metform-to-laravel-api.php:193-207 | "whole.fraction" gives the exact decimal with the fraction's length as scale |
| Transformers.NumberOfDecimal | metform-to-laravel-api/metform-to-laravel-api.php:207 | a clean "whole.fraction" is read as that exact decimal |
| Transformers.ToNumericRejects | metform-to-laravel-api/metform-to-laravel-api.php:201-203 | "-", "1.2.3", "1-2" and "abc" give null |
| Transformers.ToNumericRejectsTwoPoints | metform-to-laravel-api/metform-to-laravel-api.php:201-203 | any "digits.digits.digits" gives null |
| Transformers.NoNumberCharIsNull | metform-to-laravel-api/metform-to-laravel-api.php:195-203 | a string without digits, '.' or '-' gives null |
| Transformers.CleanedNotNumericIsNull | metform-to-laravel-api/metform-to-laravel-api.php:201-203 | a clean string that is not numeric gives null |
| Transformers.RejectsDash | metform-to-laravel-api/metform-to-laravel-api.php:201 | "-" is not numeric |
| Transformers.RejectsInnerMinus | metform-to-laravel-api/metform-to-laravel-api.php:201 | "1-2" is not numeric |
| Transformers.DigitsOnly | metform-to-laravel-api/metform-to-laravel-api.php:312-314 | the digits-only cleaner gives only digits, never more characters than the value's string form |
| Transformers.DigitsOnlyIdempotent | metform-to-laravel-api/metform-to-laravel-api.php:346-351 | cleaning twice is cleaning once |
| Transformers.DigitsOnlyKeepsDigits | metform-to-laravel-api/metform-to-laravel-api.php:312-314 | an all-digit string is left unchanged |
| Transformers.DigitsOnlyNoDigits | metform-to-laravel-api/metform-to-laravel-api.php:312-314 | a string with no digit cleans to `""`, not null |
| Transformers.DigitsOnlyDropsSeparators | metform-to-laravel-api/metform-to-laravel-api.php:312-314 | "001-1234567-8" style input cleans to the three digit groups joined |
| FieldAccess.Apply | metform-to-laravel-api/metform-to-laravel-api.php:294-297 | no transformer yields an array |
| FieldAccess.GetValue | metform-to-laravel-api/metform-to-laravel-api.php:288-307 | missing, null or blank fields give the default; with no callbacks the raw value comes back; with a transformer and no sanitizer the result is the default or the transformed value, and null only when the default is; a non-string result is never sanitized; never an array unless the default is |
| FieldAccess.GetValuePresent | metform-to-laravel-api/metform-to-laravel-api.php:293-306 | for a present field: the transformed value, or the default when it is null, sanitized only if it is a string |
| FieldAccess.PlainValue | metform-to-laravel-api/metform-to-laravel-api.php:288-307 | the text fields read with a sanitizer and no transformer: null when blank, a string as its sanitized text, any other scalar as submitted |
| FieldAccess.GetValueFalseIsBlank | metform-to-laravel-api/metform-to-laravel-api.php:289-290 | a field holding false reads as blank (its string form is "") and gives the default |
| FieldAccess.GetValueWhitespaceIsBlank | metform-to-laravel-api/metform-to-laravel-api.php:289-290 | a whitespace-only field gives the default |
| FieldAccess.GetValueKeepsInts | metform-to-laravel-api/metform-to-laravel-api.php:300-304 | an integer field passes through the text sanitizer unchanged |
| FieldAccess.GetValueBoolDefaultFalse | metform-to-laravel-api/metform-to-laravel-api.php:487 | with default false and `mfla_to_bool`, the result is always a boolean |
| FieldAccess.GetValueDate | metform-to-laravel-api/metform-to-laravel-api.php:313 | a date field reads as null or a 10-character string |
| FieldAccess.GetValueNumber | metform-to-laravel-api/metform-to-laravel-api.php:383 | a numeric field reads as null, an int or a decimal |
| FieldAccess.GetValueDigits | metform-to-laravel-api/metform-to-laravel-api.php:312-314 | a digits-only field reads as null when blank and as its digits otherwise, possibly `""` |
| FieldAccess.TransformedValue | metform-to-laravel-api/metform-to-laravel-api.php:288-298 | with a transformer and no sanitizer, a field reads as null when blank and as the transformer's result otherwise |
| FieldAccess.GetValueLowercase | metform-to-laravel-api/metform-to-laravel-api.php:319 | with `strtolower`, a field reads as null when blank and as its lower-cased string form otherwise |
| Mapping.MaritalStatus | metform-to-laravel-api/metform-to-laravel-api.php:320-327 | always one of the four API values or 'other' |
| Mapping.HousingType | metform-to-laravel-api/metform-to-laravel-api.php:333-340 | always 'owned', 'rented', 'mortgaged' or 'other'; 'familiar' maps to 'other' |
| Mapping.MaritalStatusOneToOne | metform-to-laravel-api/metform-to-laravel-api.php:320-327 | the marital map is one-to-one outside 'other': two inputs that map to the same API value other than 'other' are equal |
| Mapping.HousingTypeOneToOne | metform-to-laravel-api/metform-to-laravel-api.php:333-340 | the housing map is one-to-one outside 'other' |
| Mapping.ReadFields | metform-to-laravel-api/metform-to-laravel-api.php:310-487 | every `$get_value` read of the mapper, with its default, sanitizer and transformer; the cedula and the two customer numbers read as null or as digits only, and terms reads as a boolean |
| Mapping.MaritalRead | metform-to-laravel-api/metform-to-laravel-api.php:319 | the marital status is looked up lower-cased, so the lookup ignores case; a blank field is null and maps to 'other' |
| Mapping.HousingRead | metform-to-laravel-api/metform-to-laravel-api.php:332 | the housing type is looked up lower-cased; a blank field is null and maps to 'other' |
| Mapping.Push | metform-to-laravel-api/metform-to-laravel-api.php:353-356 | `$list[] = $x`: x goes last, and a list keyed 0 .. n-1 stays keyed by position |
| Mapping.Phones | metform-to-laravel-api/metform-to-laravel-api.php:345-357 | the customer's phone list: one phone per truthy number, keyed by position |
| Mapping.References | metform-to-laravel-api/metform-to-laravel-api.php:397-434 | the reference list: one entry for the spouse when named or with a phone, one for each named reference, keyed by position |
| Mapping.Customer | metform-to-laravel-api/metform-to-laravel-api.php:262-481 | the customer object: six entries with a company, five without, and the NID as read last (it is written after the skeleton) |
| Mapping.MapCustomerDetails | metform-to-laravel-api/metform-to-laravel-api.php:265-376 | writing the detail fields and then the phone and address lists over their placeholders builds the customer details of the payload |
| Mapping.MapDetailFields | metform-to-laravel-api/metform-to-laravel-api.php:310-342 | the detail fields in the order they are written |
| Mapping.WriteLists | metform-to-laravel-api/metform-to-laravel-api.php:358-376 | a non-empty list replaces its placeholder in place; an empty one leaves the equal placeholder |
| Mapping.MapPhones | metform-to-laravel-api/metform-to-laravel-api.php:345-360 | mobile then home, each only when its digits are truthy |
| Mapping.MapReferences | metform-to-laravel-api/metform-to-laravel-api.php:397-438 | the spouse when a name or phone is given, then references 1 and 2 when named |
| Mapping.MapCompany | metform-to-laravel-api/metform-to-laravel-api.php:450-477 | the company object: name after the phone and address placeholders, each list written over its placeholder when non-empty |
| Mapping.MapJobInfo | metform-to-laravel-api/metform-to-laravel-api.php:441-447 | the job info fields in the order they are written |
| Mapping.MapLoanDetails | metform-to-laravel-api/metform-to-laravel-api.php:494-498 | the constant loan details |
| Mapping.MapCustomer | metform-to-laravel-api/metform-to-laravel-api.php:262-481 | the customer object, including the vehicle entry only when some vehicle field is non-null |
| Mapping.FillCompany | metform-to-laravel-api/metform-to-laravel-api.php:450-481 | the company placeholder is filled when the company name is truthy and unset otherwise; every other entry keeps its place |
| Mapping.Assemble | metform-to-laravel-api/metform-to-laravel-api.php:262-498 | customer, loan details and terms, in the order the keys are first written |
| Mapping.Build | metform-to-laravel-api/metform-to-laravel-api.php:262-498 | the payload from the fields read: three top-level entries with distinct keys |
| Mapping.Payload | metform-to-laravel-api/metform-to-laravel-api.php:260-498 | the payload before filtering, from the raw form data: three top-level entries (customer, details, terms) with distinct keys |
| Mapping.MapSubmission | metform-to-laravel-api/metform-to-laravel-api.php:288-498 | the mapper produces exactly the payload described by `Payload` |
| Pruning.Prune | metform-to-laravel-api/metform-to-laravel-api.php:505-517 | the filtered array is an array with no more entries than the input |
| Pruning.PruneFrom | metform-to-laravel-api/metform-to-laravel-api.php:507-516 | the foreach from position i keeps at most the remaining entries |
| Pruning.PruneIsClean | metform-to-laravel-api/metform-to-laravel-api.php:505-517 | after filtering, no null and no empty array is left at any depth |
| Pruning.PruneClean | metform-to-laravel-api/metform-to-laravel-api.php:505-517 | an array with no null and no empty array anywhere is left unchanged |
| Pruning.PruneIdempotent | metform-to-laravel-api/metform-to-laravel-api.php:505-519 | filtering twice is filtering once |
| Pruning.PruneFromKeys | metform-to-laravel-api/metform-to-laravel-api.php:507-514 | a key absent from the entries still to be visited is absent from what the foreach builds |
| Pruning.PruneGet | metform-to-laravel-api/metform-to-laravel-api.php:505-517 | under each key, the result holds the filtered input value if that is kept, and nothing otherwise |
| Pruning.PruneKeepsScalar | metform-to-laravel-api/metform-to-laravel-api.php:512-514 | every non-null scalar (false, 0 and "" included) stays under its key |
| Pruning.PruneDropsEmpty | metform-to-laravel-api/metform-to-laravel-api.php:508-514 | a null value, or an array empty after its own filtering, disappears with its key |
| Pruning.PruneKeysUnique | metform-to-laravel-api/metform-to-laravel-api.php:505-517 | filtering never introduces a key twice |
| Checks.BuildUnique | metform-to-laravel-api/metform-to-laravel-api.php:262-498 | the payload's top-level keys are distinct |
| Checks.CustomerUnique | metform-to-laravel-api/metform-to-laravel-api.php:262-481 | the customer object's keys are distinct |
| Checks.DetailsUnique | metform-to-laravel-api/metform-to-laravel-api.php:310-376 | the customer details' keys are distinct |
| Checks.EntryKept | metform-to-laravel-api/metform-to-laravel-api.php:512-514 | an entry kept by the filter is found under its key, and the filtered object is itself kept |
| Checks.EntryDropped | metform-to-laravel-api/metform-to-laravel-api.php:512-514 | an entry dropped by the filter is absent under its key |
| Checks.PrunedCustomer | metform-to-laravel-api/metform-to-laravel-api.php:505-519 | the filtered payload holds the filtered customer, which is never empty |
| Checks.NeverEffectivelyEmpty | metform-to-laravel-api/metform-to-laravel-api.php:532-536 | the empty-payload condition never holds for any field values |
| Checks.NidAfterPruning | metform-to-laravel-api/metform-to-laravel-api.php:312-314 | after filtering, customer.NID is the cleaned NID (null when blank) |
| Checks.CompanyAfterPruning | metform-to-laravel-api/metform-to-laravel-api.php:450-481 | the customer holds a company exactly when the company name is truthy |
| Checks.CompanyNamed | metform-to-laravel-api/metform-to-laravel-api.php:450-452 | a truthy company name leaves a company object |
| Checks.CompanyUnnamed | metform-to-laravel-api/metform-to-laravel-api.php:478-481 | a falsy company name leaves no company object |
| Checks.TermsAfterPruning | metform-to-laravel-api/metform-to-laravel-api.php:487-488 | terms survives the filter as the boolean it was, false included |
| Checks.LoanAfterPruning | metform-to-laravel-api/metform-to-laravel-api.php:494-498 | the loan details keep amount, term, rate and frequency; the null purpose is dropped |
| Checks.VehiclesAfterPruning | metform-to-laravel-api/metform-to-laravel-api.php:379-395 | vehicles is sent exactly when some vehicle field is non-null |
| Checks.PhonesAfterPruning | metform-to-laravel-api/metform-to-laravel-api.php:345-360 | phones is sent exactly when the mobile or the home number is truthy |
| Checks.ReadFieldsShape | metform-to-laravel-api/metform-to-laravel-api.php:288-307 | the NID, company name and vehicle fields are never arrays, and terms is always a boolean |
| Checks.NidMissing | metform-to-laravel-api/metform-to-laravel-api.php:523 | `empty($api_payload['customer']['NID'])`; a payload whose customer is empty has no NID |
| Checks.EffectivelyEmpty | metform-to-laravel-api/metform-to-laravel-api.php:532 | empty customer, empty loanApplication and terms not set; a payload for which this holds has already been stopped by the NID guard |
| Checks.NidGuardFields | metform-to-laravel-api/metform-to-laravel-api.php:523 | the NID guard fires exactly when the cedula is blank or cleans to "" or "0" |
| Checks.ReadNid | metform-to-laravel-api/metform-to-laravel-api.php:312-314 | the NID read is null when the cedula is blank and its digits otherwise |
| Checks.NidGuard | metform-to-laravel-api/metform-to-laravel-api.php:522-529 | on the filtered payload of any submission, the guard fires exactly when the cedula is blank or cleans to "" or "0" |
| Checks.SubmissionNeverEffectivelyEmpty | metform-to-laravel-api/metform-to-laravel-api.php:532-536 | the empty-payload abort is unreachable for every submission |
| Checks.TermsSet | metform-to-laravel-api/metform-to-laravel-api.php:488 | terms is present and boolean after filtering |
| Checks.TermsAlwaysSent | metform-to-laravel-api/metform-to-laravel-api.php:487-488 | every submission's filtered payload carries a boolean terms |
| Checks.CompanyAt | metform-to-laravel-api/metform-to-laravel-api.php:450-481 | customer.company is non-null after filtering exactly when the company name is truthy |
| Checks.CompanySent | metform-to-laravel-api/metform-to-laravel-api.php:450-481 | for every submission, customer.company is sent exactly when nombre-empresa reads as truthy |
| Delivery.TrimTrailingSlashes | metform-to-laravel-api/metform-to-laravel-api.php:543 | `trailingslashit`'s rtrim of '/' and '\\': the longest prefix not ending in one, with only such characters dropped |
| Delivery.TrimLeadingSlashes | metform-to-laravel-api/metform-to-laravel-api.php:543 | `ltrim($e, '/')`: the longest suffix not starting with '/', with only '/' dropped |
| Delivery.JoinUrl | metform-to-laravel-api/metform-to-laravel-api.php:543 | the trimmed base and the trimmed endpoint meet at exactly one '/' |
| Delivery.JoinUrlIgnoresExtraSlashes | metform-to-laravel-api/metform-to-laravel-api.php:670 | an extra slash at the end of the base or the start of the endpoint changes nothing |
| Delivery.JoinUrlPlain | metform-to-laravel-api/metform-to-laravel-api.php:543 | a base without a trailing slash and an endpoint without a leading one are joined with one '/' |
| Delivery.TrimmedTrailingUnique | metform-to-laravel-api/metform-to-laravel-api.php:543 | there is only one way to trim trailing slashes |
| Delivery.TrimmedLeadingUnique | metform-to-laravel-api/metform-to-laravel-api.php:543 | there is only one way to trim leading slashes |
| Delivery.Classify | metform-to-laravel-api/metform-to-laravel-api.php:558-599 | success only for 2xx, unauthorized only for 401, unprocessable only for 422 |
| Delivery.ThrowsExactly | metform-to-laravel-api/metform-to-laravel-api.php:558-599 | the call throws exactly on a transport error or a status that is neither 2xx nor 422 |
| Delivery.UnauthorizedExactly | metform-to-laravel-api/metform-to-laravel-api.php:576-586 | only a 401 reply invalidates the token |
| Delivery.DeliveredExactly | metform-to-laravel-api/metform-to-laravel-api.php:572-575 | every 2xx status is a success, and nothing else is |
| Tokens.TenthTowardZero | metform-to-laravel-api/metform-to-laravel-api.php:705 | one decimal digit dropped, rounding toward zero |
| Tokens.Truncate | metform-to-laravel-api/metform-to-laravel-api.php:705 | `(int)` of an exact decimal, one digit at a time toward zero; zero stays zero |
| Tokens.LeadingInt | metform-to-laravel-api/metform-to-laravel-api.php:705 | `(int)` of a non-numeric string, through its leading integer: a leading '-' gives at most 0, a leading '+' or digit at least 0, any other first character (or none) 0 |
| Tokens.IntCast | metform-to-laravel-api/metform-to-laravel-api.php:705 | `(int)` of the decoded `expires_in`: ints as they are, booleans as 0 or 1, decimals toward zero, strings through the number they denote or their leading integer; every value that is `empty()` casts to 0 |
| Tokens.StrCast | metform-to-laravel-api/metform-to-laravel-api.php:705 | `(int)` of a string: through its number when numeric, else its leading integer; "" and "0" cast to 0 |
| Tokens.IntCastOfText | metform-to-laravel-api/metform-to-laravel-api.php:705 | `(int)` of an integer's text is that integer |
| Tokens.Lifetime | metform-to-laravel-api/metform-to-laravel-api.php:707 | always between 60 seconds and 3 days, equal to expires_in inside that range, and clamped to the nearer bound outside it |
| Tokens.Configured | metform-to-laravel-api/metform-to-laravel-api.php:661-668 | a constant is usable when defined and neither "" nor "0" |
| Tokens.LoginRequestFor | metform-to-laravel-api/metform-to-laravel-api.php:655-670 | a login is attempted exactly when the base URL, login endpoint, username and password are all set and non-empty, to the joined login URL |
| Tokens.Fresh | metform-to-laravel-api/metform-to-laravel-api.php:623 | the cached token may be reused at time now: both transients set, token truthy, expiry truthy and more than 60 seconds ahead; with a positive expiry, exactly while now < expiry − 60 |
| Tokens.Grants | metform-to-laravel-api/metform-to-laravel-api.php:703 | the login reply grants a token: status 200 with `token` and `expires_in` set, so its body decoded to a JSON object |
| Tokens.AfterLogin | metform-to-laravel-api/metform-to-laravel-api.php:646-724 | `mfla_login_to_laravel_api` from the transients before: the request sent is the one the configuration allows, and the transients change only when that request was sent and answered |
| Tokens.Settled | metform-to-laravel-api/metform-to-laravel-api.php:693-723 | the login once its request is known: the transients change only on an answer to a request sent, and a token handed out is the one now stored |
| Tokens.AfterGetToken | metform-to-laravel-api/metform-to-laravel-api.php:609-637 | `mfla_get_laravel_api_token` from the transients before: a login is sent exactly when the cache is not fresh and the configuration allows one; without it the transients stay as they were |
| Tokens.TokenStore.constructor | metform-to-laravel-api/metform-to-laravel-api.php:617-618 | the store starts from the two transients as given |
| Tokens.TokenStore.Invalidate | metform-to-laravel-api/metform-to-laravel-api.php:581-582 | both transients are deleted |
| Tokens.TokenStore.Store | metform-to-laravel-api/metform-to-laravel-api.php:712-713 | both transients are set, to the token and to its expiry timestamp |
| Tokens.TokenStore.Login | metform-to-laravel-api/metform-to-laravel-api.php:646-724 | the new transients, the result and the request sent are those of the login step |
| Tokens.TokenStore.Settle | metform-to-laravel-api/metform-to-laravel-api.php:703-723 | the transients, the result and the request after the reply equal `Settled`: a granting reply goes to `Grant`, any other reply deletes both |
| Tokens.TokenStore.Grant | metform-to-laravel-api/metform-to-laravel-api.php:703-716 | a granting reply: both transients set, to the token and now plus `(int)` expires_in clamped to [60 s, 3 days], and the token returned; equal to `Settled` |
| Tokens.TokenStore.GetToken | metform-to-laravel-api/metform-to-laravel-api.php:609-637 | the new transients, the result and the login request (if any) are those of the token step |
| Tokens.LoginRequested | metform-to-laravel-api/metform-to-laravel-api.php:661-670 | the login request is sent whenever the configuration allows it |
| Tokens.ReusedExactlyWhenFresh | metform-to-laravel-api/metform-to-laravel-api.php:617-636 | the cached token is returned without a login exactly when both transients are set, the token is truthy and expiry > now + 60 |
| Tokens.GrantedStep | metform-to-laravel-api/metform-to-laravel-api.php:703-716 | a granted login stores the token with expiry now + the clamped lifetime, and returns it |
| Tokens.GrantStores | metform-to-laravel-api/metform-to-laravel-api.php:703-716 | a granted login stores and returns the token, with expiry between one minute and three days ahead |
| Tokens.RefusalClears | metform-to-laravel-api/metform-to-laravel-api.php:717-723 | a reply that does not grant a token deletes both transients and gives false |
| Tokens.FailureKeepsSlots | metform-to-laravel-api/metform-to-laravel-api.php:661-693 | a login not attempted, or failing in transport, gives false and leaves both transients as they were |
| Tokens.SlotsChangeOnlyByLogin | metform-to-laravel-api/metform-to-laravel-api.php:609-724 | the token step changes the transients only when it sent a login request |
| Tokens.TokenHandedOutIsStored | metform-to-laravel-api/metform-to-laravel-api.php:609-724 | a truthy token handed out is the one in the token transient |
| Tokens.ReuseWindow | metform-to-laravel-api/metform-to-laravel-api.php:623 | a token granted with lifetime L is reused at time t exactly when t < now + L - 60, so one granted for 60 seconds or less is never reused once its grant time has passed |
| Relay.AfterToken | metform-to-laravel-api/metform-to-laravel-api.php:541-553 | what is posted is the payload, with the token, to the joined create URL; the login request reported is the token step's |
| Relay.AfterRelay | metform-to-laravel-api/metform-to-laravel-api.php:217-600 | the whole run from the transients before it: a posted payload is the filtered payload, past the NID guard, with a truthy bearer; the transients change only when a login or a post was made |
| Relay.ProcessSubmission | metform-to-laravel-api/metform-to-laravel-api.php:217-600 | the login request, the create request, the ending and the new transients are those of the run |
| Relay.MapAndSend | metform-to-laravel-api/metform-to-laravel-api.php:260-600 | mapping, filtering and sending give the run after the token step on the filtered payload |
| Relay.Send | metform-to-laravel-api/metform-to-laravel-api.php:522-600 | the two guards, the post and the reply's verdict give the run after the token step |
| Relay.Settle | metform-to-laravel-api/metform-to-laravel-api.php:572-599 | a 401 deletes both transients; the run throws exactly on a verdict that throws |
| Relay.SentExactly | metform-to-laravel-api/metform-to-laravel-api.php:217-555 | a payload is posted exactly when the run is configured, has data, obtains a truthy token and the cedula leaves a NID other than "" and "0"; it is the filtered payload, with the token, at the joined URL |
| Relay.AfterTokenThrows | metform-to-laravel-api/metform-to-laravel-api.php:250-599 | after the token step, the run throws exactly when the token is falsy or a posted payload's reply throws |
| Relay.ThrowsExactlyWhen | metform-to-laravel-api/metform-to-laravel-api.php:217-600 | the run throws exactly when it is attempted and either no token is obtained or the posted payload's reply is a transport error or a status other than 2xx and 422 |
| Relay.AfterTokenSlots | metform-to-laravel-api/metform-to-laravel-api.php:576-586 | after the token step, only a posted payload answered with 401 clears the transients |
| Relay.UnauthorizedClearsToken | metform-to-laravel-api/metform-to-laravel-api.php:576-586 | in an attempted run, the transients are cleared exactly by a 401 reply to a posted payload and are otherwise as the token step left them |
| Relay.AfterTokenGuarded | metform-to-laravel-api/metform-to-laravel-api.php:522-529 | what is posted passed the NID guard and carries a truthy bearer token |
| Relay.SentPayloadShape | metform-to-laravel-api/metform-to-laravel-api.php:487-555 | a posted payload always has a NID and a boolean terms, and goes with a truthy token |
| Intake.IsPending | metform-to-laravel-api/metform-to-laravel-api.php:103-110 | an action is pending exactly when some queued action has the same hook and arguments |
| Intake.Targets | metform-to-laravel-api/metform-to-laravel-api.php:75-82 | the submitted form is the target: the constant is defined, not null, and loosely equal to the form id or the form name, whichever side of `!=` it is written on |
| Intake.AfterSubmission | metform-to-laravel-api/metform-to-laravel-api.php:61-121 | the queue after one submission: it only grows, by at most one action, which is the relay's for this data, due now |
| Intake.ActionQueue.HandleSubmission | metform-to-laravel-api/metform-to-laravel-api.php:61-121 | the queue after a submission is the submission step's, and a queue without duplicates stays without |
| Intake.ActionQueue.constructor | metform-to-laravel-api/metform-to-laravel-api.php:103-108 | the queue starts with no pending action |
| Intake.AppendKeepsNoDuplicates | metform-to-laravel-api/metform-to-laravel-api.php:110-112 | appending an action that is not pending keeps the queue free of duplicates |
| Intake.NoActionUnlessTargeted | metform-to-laravel-api/metform-to-laravel-api.php:64-89 | nothing is queued when the scheduler is missing, the target is undefined, or it equals neither the form id nor the form name |
| Intake.TargetedIsPending | metform-to-laravel-api/metform-to-laravel-api.php:94-120 | after a targeted submission its data is pending: one action is appended if none was, and the queue is unchanged otherwise |
| Intake.SubmissionIdempotent | metform-to-laravel-api/metform-to-laravel-api.php:101-120 | submitting the same data again, at any time, changes nothing |
| Intake.SubmissionKeepsNoDuplicates | metform-to-laravel-api/metform-to-laravel-api.php:101-120 | a queue without duplicate hook and arguments stays so |
| Intake.TargetIdAsText | metform-to-laravel-api/metform-to-laravel-api.php:82 | a target given as the id's text matches the integer id, and an integer target matches the id's text |

## Left out

- `mfla_load_action_scheduler`, its admin notice (lines 28-50) and the `add_action` registrations: plugin bootstrapping with no logic to model.
- `mfla_log_message`: it only logs, so the model has no log.
- The `function_exists` checks at the top of each function: the model assumes WordPress, PHP and Action Scheduler are loaded, except that the intake takes whether the scheduler is loaded as a parameter.
- `wp_remote_post`, `json_encode` and `json_decode`: the login and create replies are inputs. A login reply is a status code with the already-decoded body. A create reply is a transport error or a status code with a body.
- `mfla_verify_token_with_api` (lines 745-779): its only call site is commented out.
- `sanitize_text_field` and `sanitize_email`: these are parameters, functions from string to string, whose behaviour is not modelled.
- `time()`: the clock is the parameter `now`.
- Action Scheduler internals: retry policy, how a thrown exception is recorded, and when a queued action runs. The relay ends with `Returned` or `Threw`, and the queue only holds pending actions with their due time.
- Concurrency: two workers refreshing the token at once are not modelled.
- Transient time-to-live: a token transient expires at the stored expiry, and the 60-second buffer already stops it from being used by then.
- Transformers.ToNumeric: a decimal is the exact value m / 10^k instead of an IEEE double, so rounding of long fractions is not modelled. An integer text beyond 64 bits gives the unbounded integer, where PHP's `(int)` saturates at PHP_INT_MAX or PHP_INT_MIN.
- Transformers.ToBool: a numeric string is judged by its exact value. PHP's `(int)` first reads a non-integer numeric string as an IEEE double. So `"0.99999999999999999"`, which reads as 1.0, is true in PHP and false here. `"1.99999999999999999"`, which reads as 2.0, is false in PHP and true here. `Transformers.ToBoolDecimal` states the exact-value answer.
- Values.LooseEquals: an int and a numeric string, or two numeric strings, are compared by exact value. PHP compares them through doubles when a side is float-like, so numerals that differ only beyond double precision are equal in PHP and unequal here. Integers past 64 bits are not modelled either.
- PHP version: `is_numeric` and loose `==` follow PHP 8, although the plugin header asks for PHP 7.4 (line 9). On 7.4, trailing whitespace makes a string non-numeric. So `mfla_to_bool("1 ")` is false there, because `"1"` is not an affirmative word, and true here. Also on 7.4, an int compared with a non-numeric string converts the string to an int. So a target of 646 equals a form name `"646abc"` there but not here.
- Tokens.IntCast: PHP integers are unbounded here. A 64-bit overflow of `(int)` on a huge `expires_in` is not modelled.
- Tokens.LeadingInt: for a string that is not numeric as a whole, `(int)` reads only the leading sign and digits. The model ignores a fraction or exponent in that leading part, so `(int)"1e3x"` is 1 here, not 1000.
- Strings.LowerAscii: `strtolower` lower-cases ASCII letters only, as PHP 8.2 does. A locale-dependent lower-casing of other bytes is not modelled.
- Values.Value: form fields are scalars (null, boolean, integer or string). An array-valued field, such as a multi-select, is not modelled.
- Tokens.TokenStore.GetToken: the cached token is any value that is truthy. The plugin only ever stores the decoded `token` field.
