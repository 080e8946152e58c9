# address-cleanser in Dafny

A model of the offline core of address-cleanser, a tool that parses, validates and formats US postal addresses. It covers the following stages:

- `clean_string` normalises whitespace and case.
- `handle_edge_cases` rewrites common words and PO-box spellings before tagging.
- `parse_address` calls the `usaddress` tagger and scores how confident the parse is. When a label repeats, it tries three rewrite strategies in turn.
- `normalize_components` maps tagger labels to the pipeline's own field names and handles the street-name, ZIP+4 and unit special cases.
- `validate_address` checks the ZIP code, the state and completeness.
- `format_usps_standard` applies the USPS Publication 28 street-suffix, directional and secondary-unit abbreviations. Two more functions render the result as a single line and as mailing lines.
- `create_formatted_address_result` bundles the result.

Around the core the model also covers:

- the statistics and batch summary of the API service (`AddressService`);
- the command-line pipeline and its chunked CSV loop;
- the file-extension check, the processing statistics and the address-column detection and joining of src/utils.py.

Module layout, one file per source module:

| file | module | models |
|---|---|---|
| outcomes.dfy | `Outcomes` | `Option`, `Result` |
| fields.dfy | `Fields` | the field enumeration, component and label dictionaries, truthiness of `d.get(k)` |
| text.dfy | `Text` | ASCII case mapping, `strip`, `split`, `join`, `clean_string` |
| patterns.dfy | `Patterns` | the fragment of `re` the rewrites use (literals, `\.?`, `\s*`, `\b`, alternation) and `re.sub` |
| validator.py → validator.dfy | `Validator` | ZIP, state, completeness, confidence, street number, city |
| parser.py → parser.dfy | `Parser` | parsing confidence, repeated-label strategies, `parse_address`, normalization, `handle_edge_cases` |
| formatter.py → formatter.dfy | `Formatter` | the three abbreviation tables, standardization, USPS formatting, output lines |
| utils.py → utils.dfy | `Utils` | `validate_file_extension`, `calculate_processing_stats`, `detect_address_columns`, `combine_address_columns` |
| api/service.py → service.dfy | `Service` | `_update_stats`, `get_stats`, `process_single_address`, `process_batch` |
| cli.py → cli.dfy | `Cli` | `process_single_address`, `process_csv_file` |

Conventions:

- The `usaddress` tagger is a parameter, `Tagger = string -> TagOutcome`. It either returns labels and an address type, raises `RepeatedLabelError`, or raises something else.
- Dictionaries whose keys are fixed field names become `map<Field, string>`. The tagger's labels stay `map<string, string>`.
- Python's truthiness test `d.get(k)` is `Present(d, k)`: the key is there with a non-empty value. The special cases of normalization test key membership alone, and the model keeps the two notions apart.
- Confidences are `real`, so every constant of the Python code (7.5, 0.8, the clamps) is exact.
- Strings are ASCII `seq<char>`.
- The service's mutable statistics are threaded through as a `Stats` value.
- The service is written against any `Pipeline` of stages whose validation is sound. `Service.Usps` instantiates it with this model's stages, and `Service.UspsSound` proves that this instantiation is sound.
- The CLI's reading of the CSV file is replaced by a `Frame`, a map from column names to cells, with a missing cell as `None`.
- The single line joins city, state and ZIP with ", ", so a full street address ends "AUSTIN, TX, 78701" (src/formatter.py:432-435). The hand-written sample record in tests/test_integration.py:188 shows "TX 78701", but that record does not come from the formatter. The model follows the code.

## Model

| member | source | states |
|---|---|---|
| Text.Upper | src/utils.py:82 | upper-casing keeps the length and maps each character by ASCII `upper` |
| Text.Lower | src/utils.py:124-125 | lower-casing keeps the length and maps each character by ASCII `lower` |
| Text.UpperIdempotent | src/utils.py:82 | upper-casing twice is upper-casing once |
| Text.TrimLeft | src/utils.py:82 | the result is a suffix of the input, only whitespace was removed, and it does not start with whitespace |
| Text.TrimRight | src/utils.py:82 | the result is a prefix of the input, only whitespace was removed, and it does not end with whitespace |
| Text.StripTrims | src/utils.py:82 | `strip()` leaves no whitespace at either end |
| Text.TrimLeftUnique | src/parser.py:157 | a whitespace prefix followed by a non-space, or the end, is exactly what left trimming drops |
| Text.TrimRightUnique | src/parser.py:157 | a whitespace suffix after a non-space, or the start, is exactly what right trimming drops |
| Text.StripUpper | src/formatter.py:345 | stripping and upper-casing commute |
| Text.Split | src/utils.py:82 | `split()` yields non-empty tokens without whitespace |
| Text.SplitJoin | src/formatter.py:379-384 | splitting a single-space join of tokens gives back the tokens |
| Text.SplitStrip | src/formatter.py:376-379 | splitting ignores leading and trailing whitespace |
| Text.SplitUpper | src/formatter.py:376-379 | the tokens of the upper-cased text are the upper-cased tokens |
| Text.JoinTokensSingleSpaced | src/utils.py:82 | joining tokens with one space gives text with no leading, trailing or doubled space, empty only for no tokens |
| Text.UpperJoin | src/utils.py:82 | upper-casing a join is joining the upper-cased parts |
| Text.JoinEmpty | src/utils.py:275 | a join of non-empty parts is empty exactly when there are no parts |
| Text.CleanString | src/utils.py:68-82 | empty input gives ""; the output is trimmed, single-spaced and has no lower-case letter |
| Text.CleanStringKeepsTokens | src/utils.py:82 | the tokens of the cleaned text are the upper-cased tokens of the input |
| Text.CleanStringBlank | src/utils.py:78-82 | text with no tokens cleans to "" |
| Text.CleanStringIdempotent | src/utils.py:82 | cleaning a cleaned string changes nothing |
| Text.SplitAfterSpaces | src/utils.py:82 | leading whitespace never changes what `split()` returns |
| Text.SplitGapToken | src/utils.py:82 | a whitespace gap of any width, then a token ended by whitespace or the end: `split()` yields that token first and then the tokens of the rest |
| Text.SplitConcat | src/utils.py:82 | `split()` of two texts meeting at whitespace is the first text's tokens followed by the second's |
| Text.CleanStringBySplit | src/utils.py:78-82 | cleaning non-empty text gives its upper-cased tokens joined by single spaces |
| Text.JoinAppend | src/utils.py:275 | joining two non-empty lists puts exactly one separator between the two joins |
| Text.CleanOfJoinedTokens | src/utils.py:82 | a single-space join of upper-case tokens is already clean |
| Patterns.Match | src/parser.py:154 | a match never extends past the subject |
| Patterns.MatchAnyConsumes | src/parser.py:154-167 | a pattern with a literal never matches the empty string, so `re.sub` makes progress |
| Patterns.SubFromNoLower | src/parser.py:154-167 | substituting upper-case text into upper-case text leaves no lower-case letter |
| Patterns.WordPatternMatch | src/parser.py:135-154 | `\bWORD\b` matches only at a word boundary, and there exactly when the literal and the closing boundary match |
| Patterns.WordMatchAtRunStart | src/parser.py:135-154 | at the start of a word run, `\bWORD\b` matches exactly when the whole run equals WORD ignoring case |
| Patterns.WordSubIsRunReplacement | src/parser.py:153-154 | from a word boundary, `re.sub(r'\bWORD\b', repl, s, IGNORECASE)` equals replacing every maximal word run equal to WORD |
| Patterns.WordSubReplacesRuns | src/parser.py:153-154 | the same equality from the start of any string |
| Patterns.NoMatchWithoutOpening | src/parser.py:161-163 | a pattern whose alternatives open with a word boundary and the letter c cannot match where c is not the next character |
| Patterns.SubAvoiding | src/parser.py:166-167 | such a pattern leaves text without c in either case unchanged |
| Patterns.SubAfterPrefix | src/parser.py:166-167 | the substitution copies a prefix without c that ends outside a word, then carries on |
| Patterns.SubReplacesOne | src/parser.py:166-167 | text a, then w where the pattern matches exactly w, then t, with no c in a or t and a ending outside a word, becomes a, the replacement, t |
| Patterns.SubKeepsOne | src/parser.py:166-167 | when the pattern does not match at w, and w has no c after its first character, a, w, t is left unchanged |
| Validator.Keep | src/validator.py:56 | deleting the characters outside a class keeps only characters of the class and never lengthens |
| Validator.KeepConcat | src/validator.py:56 | the deletion distributes over concatenation |
| Validator.KeepStrip | src/validator.py:56 | stripping before the deletion changes nothing |
| Validator.ValidateZipCode | src/validator.py:42-66 | valid iff non-empty and, after deleting all but digits and `-`, exactly 5 digits or 5 digits, `-`, 4 digits; each error message worded as in the Python code |
| Validator.ZipAcceptsWellFormed | src/validator.py:59-64 | every 5-digit and every 5-4 digit ZIP is accepted |
| Validator.ZipIgnoresNoise | src/validator.py:56 | inserting a character other than a digit or `-` never changes the verdict |
| Validator.ZipNeedsFiveOrNineDigits | src/validator.py:56-64 | an accepted ZIP carries exactly 5 or 9 digits |
| Validator.StateNamesMapToCodes | src/validator.py:13-39 | every state name maps to one of the valid abbreviations |
| Validator.StateCodeShape | src/validator.py:13-21 | every valid abbreviation is two upper-case letters |
| Validator.GetStateAbbreviation | src/validator.py:289-312 | empty input gives none; when the upper-cased, stripped key is a valid abbreviation the result is that key; otherwise it is the full-name table entry for the key, or none; a result is always a valid abbreviation |
| Validator.StateNamesAccepted | src/validator.py:88-92 | every full name of the table, in any case and with any padding, looks up to its own code and passes `validate_state` |
| Validator.StateNamesAreNotCodes | src/validator.py:11-39 | no full name is also a two-letter code, so the full-name branch is reached for every name |
| Validator.StateNameExample | src/validator.py:299-312 | "Texas" looks up to "TX" and is a valid state |
| Validator.UnknownStateExample | src/validator.py:299-312 | "XX" looks up to nothing and is not a valid state |
| Validator.ValidateState | src/validator.py:69-92 | valid iff `get_state_abbreviation` finds a code, that is iff the input is non-empty and its upper-cased, stripped key is an abbreviation or a full name; no error when valid; "State is missing" for empty input; otherwise "Invalid state: " with the raw input and the fixed explanation |
| Validator.StateAbbreviationIdempotent | src/validator.py:299-312 | looking up the abbreviation a lookup returned gives it back |
| Validator.CodeLooksUpItself | src/validator.py:299-306 | a valid abbreviation looks up to itself |
| Validator.StateCaseInsensitive | src/validator.py:299-312 | lookup and validation ignore the case of the input |
| Validator.Missing | src/validator.py:114-116 | the missing fields are exactly the required ones that are not truthy, in the required order |
| Validator.MissingNone | src/validator.py:114-125 | nothing is missing iff every listed field is truthy |
| Validator.ValidateAddressCompleteness | src/validator.py:95-126 | complete iff the dict is non-empty and has truthy PO box, city and state, or truthy street number, street name, city and state; complete reports no missing fields; otherwise the missing ones in order |
| Validator.Clamp | src/validator.py:165 | the result lies in [0, 100] and equals the input inside that range |
| Validator.CalculateConfidenceScore | src/validator.py:129-165 | the score lies in [0, 100] and is 0 when either dictionary is empty |
| Validator.ConfidenceMonotone | src/validator.py:149-165 | turning a validation flag on never lowers the score |
| Validator.ConfidenceExamples | src/validator.py:140-165 | base 80 with all flags gives 100; base 50 with none gives 0; base 60 with ZIP and completeness gives 65 |
| Validator.ValidationConfidence | src/validator.py:208-212 | for a component dict, which has no `confidence` key, the score is 35 when all checks pass, 5 when complete with exactly one of ZIP or state valid, else 0 |
| Validator.ValidateAddress | src/validator.py:168-225 | an empty dict gets the fixed empty result; otherwise each flag is its check and `valid` is their conjunction; the issues are the ZIP error, the state error and "Missing required fields: " with the missing names joined by ", ", in that order, each present exactly when its check fails; confidence 35 when valid, 5 when complete with exactly one of ZIP and state valid, else 0; `missing_fields` is the missing list, `[]` when complete |
| Validator.ShowNatValue | src/validator.py:250 | reading back the decimal digits of a number gives the number |
| Validator.ValidateStreetNumber | src/validator.py:228-256 | valid iff the digits of the input are at most 4300 and form a number in [1, 99999]; more than 4300 digits is the `ValueError` of `int()`, reported as "Invalid street number format: …"; each error message worded as in the Python code |
| Validator.StreetNumberTooLong | src/validator.py:249-256 | a digit string longer than `int()` converts is rejected with the format message, whatever its value |
| Validator.StreetNumberRange | src/validator.py:248-254 | the decimal text of `n` is accepted iff 1 ≤ n ≤ 99999 |
| Validator.StreetNumberIgnoresNoise | src/validator.py:242 | inserting a non-digit never changes the verdict |
| Validator.ValidateCity | src/validator.py:259-286 | valid iff non-empty and the stripped text has 2 to 50 characters, all letters, whitespace, `-` or `'`; each error message worded as in the Python code |
| Validator.CityCaseInsensitive | src/validator.py:283 | upper-casing a city never changes the verdict |
| Parser.Failure | src/parser.py:24-30 | every error result has the error set, empty `parsed` and confidence 0 |
| Parser.CountKeys | src/parser.py:194-198 | a count of present labels is at most the number of labels asked about |
| Parser.ParsingConfidence | src/parser.py:172-206 | 0 for no labels, otherwise between 50 and 100 |
| Parser.ParsingConfidenceMonotone | src/parser.py:194-206 | adding a label never lowers the confidence |
| Parser.FullStreetAddressConfidence | src/parser.py:187-206 | all four required labels and a ZIP, without a post-modifier, on a non-PO-box address score exactly 90 |
| Parser.BeforeFirstComma | src/parser.py:227 | strategy 2 keeps the text before the first comma, or all of a text without one |
| Parser.SecondStrategyDropsCommas | src/parser.py:227 | the second strategy's output has no comma and leaves comma-free text unchanged |
| Parser.TryStrategies | src/parser.py:232-257 | success iff some remaining strategy tags; the strategy reported is the first that tags; otherwise the "Could not parse address" error |
| Parser.HandleRepeatedLabel | src/parser.py:209-265 | keeps the original text; succeeds iff a strategy is named; on success the confidence is 0.8 times that of the labels found |
| Parser.TryStrategiesShape | src/parser.py:238-245 | every successful fallback names its strategy and scales the confidence by 0.8 |
| Parser.ParseAddress | src/parser.py:14-60 | empty input gives the invalid-input error; `original` is the raw text; errors carry no labels and confidence 0; a successful tag is returned with its type and its confidence, within [0, 100]; a foreign tagger error becomes "Parsing error: …" |
| Parser.TryStrategiesOriginal | src/parser.py:239-253 | the fallback result depends on the original text only through its `original` field |
| Parser.ParseSeesOnlyCleanedText | src/parser.py:33-52 | two inputs with the same cleaned text parse alike, apart from `original` |
| Parser.ParseOfCleaned | src/parser.py:33 | parsing the cleaned text gives the same result as parsing the raw text, apart from `original` |
| Parser.Label | src/parser.py:99-101 | a label is read exactly when its value is truthy |
| Parser.MapEntry | src/parser.py:99-109 | one mapping step adds at most its own field |
| Parser.MapEntriesPointwise | src/parser.py:98-109 | the mapping loop, field by field, is the fold of the entries that write that field |
| Parser.EntriesAppend | src/parser.py:98 | folding two runs of entries is folding one after the other |
| Parser.OnlyWriters | src/parser.py:79-95 | only the entries that write a field decide its value |
| Parser.EntryAlways | src/parser.py:108-109 | an ordinary entry writes the cleaned value when its label is truthy and leaves the field alone otherwise |
| Parser.MappedByOne | src/parser.py:98-109 | a field written by one entry holds that label's cleaned value, if any |
| Parser.MappedByTwo | src/parser.py:98-109 | a field written by two entries holds the later label's value when truthy, else the earlier one's |
| Parser.MappedByThree | src/parser.py:98-109 | a field written by two ordinary entries and one when-unset entry: the later ordinary one wins, then the earlier, then the when-unset one |
| Parser.MapsStreetNumber | src/parser.py:80-109 | `street_number` is the cleaned `AddressNumber` |
| Parser.MapsStreetName | src/parser.py:81-109 | after mapping alone, `street_name` is the cleaned `StreetName` |
| Parser.MapsPrefix | src/parser.py:82-109 | the directional prefix is the cleaned `StreetNamePreDirectional` |
| Parser.MapsSuffix | src/parser.py:83-109 | the directional suffix is the cleaned `StreetNamePostDirectional` |
| Parser.MapsStreetType | src/parser.py:84-109 | `street_type` is the cleaned `StreetNamePostType` when truthy, else the cleaned `StreetNamePostModifier`, since the later entry overrides |
| Parser.MapsUnitType | src/parser.py:86-109 | `unit_type` is the cleaned `OccupancyType` |
| Parser.MapsUnitNumber | src/parser.py:87-109 | `unit_number` is the cleaned `OccupancyIdentifier` |
| Parser.MapsCity | src/parser.py:88-109 | `city` is the cleaned `PlaceName` |
| Parser.MapsState | src/parser.py:89-109 | `state` is the cleaned `StateName` |
| Parser.MapsZipCode | src/parser.py:90-109 | after mapping alone, `zip_code` is the cleaned `ZipCode` |
| Parser.MapsZipPlus4 | src/parser.py:91-109 | `zip_plus4` is the cleaned `ZipPlus4` |
| Parser.MapsPoBox | src/parser.py:92-107 | `po_box` is the cleaned `USPSBoxID` when truthy, else `POBox`, else `USPSBoxType` only when `po_box` is still unset |
| Parser.MapsNoUnit | src/parser.py:79-95 | the mapping never writes `unit` |
| Parser.StreetParts | src/parser.py:277-283 | no street parts means no `StreetName` label |
| Parser.JoinStreetName | src/parser.py:276-286 | only `street_name` changes; it becomes the space-join of the present directional and name parts, if there are any |
| Parser.CombineZip | src/parser.py:288-294 | only `zip_code` changes |
| Parser.CombineUnit | src/parser.py:296-302 | only `unit` changes |
| Parser.NormalizeSpecialCases | src/parser.py:268-302 | only `street_name`, `zip_code` and `unit` change |
| Parser.NormalizeComponents | src/parser.py:63-114 | no labels give `{}`; otherwise the result agrees with the label mapping on every field except `street_name`, `zip_code` and `unit` |
| Parser.SpecialStreetName | src/parser.py:277-286 | the street name after the special cases is the space-join of the cleaned parts present as keys, if any |
| Parser.SpecialZipCode | src/parser.py:288-294 | the ZIP after the special cases is the raw `ZipCode`, followed by `-` and the raw `ZipPlus4` when both keys exist |
| Parser.SpecialUnit | src/parser.py:296-302 | the unit after the special cases is the cleaned `OccupancyType`, a space and the raw identifier, or the raw identifier alone |
| Parser.NormalizeStreetName | src/parser.py:277-286 | the normalized street name, end to end |
| Parser.NormalizeZipCode | src/parser.py:288-294 | the normalized ZIP code, end to end |
| Parser.NormalizeUnit | src/parser.py:296-302 | the normalized unit, end to end |
| Parser.WordRewritesUpper | src/parser.py:134-151 | every rewrite word and replacement is upper-case word characters |
| Parser.RewriteWordsIsReplaceRuns | src/parser.py:153-154 | the sixteen regex rewrites equal the regex-free rewrites of whole word runs |
| Parser.RewriteWordsNoLower | src/parser.py:153-154 | the rewrites keep upper-case text upper-case |
| Parser.PoBoxPatterns | src/parser.py:160-164 | the three patterns, dotted, post-office and plain, in that order; each needs at least one character |
| Parser.DottedPoBox | src/parser.py:161 | `\bP\.?O\.?\s*BOX\b` opens with a word boundary and "P" and needs at least one character |
| Parser.PostOfficePoBox | src/parser.py:162 | `\bPOST\s*OFFICE\s*BOX\b` opens with a word boundary and "P" and needs at least one character |
| Parser.PlainPoBox | src/parser.py:163 | `\bPO\s*BOX\b` opens with a word boundary and "P" and needs at least one character |
| Parser.MatchDotted | src/parser.py:161 | at the start of a word, the dotted pattern matches a whole "P", optional ".", "O", optional ".", whitespace run, "BOX" that a non-word character follows |
| Parser.MatchPostOffice | src/parser.py:162 | at the start of a word, the post-office pattern matches a whole "POST", whitespace, "OFFICE", whitespace, "BOX" that a non-word character follows |
| Parser.MatchPlain | src/parser.py:163 | at the start of a word, the plain pattern matches "PO BOX" followed by a non-word character |
| Parser.DottedMissesPostOffice | src/parser.py:161-162 | the dotted pattern does not match at "POST OFFICE BOX" |
| Parser.PostOfficeMissesPO | src/parser.py:162-163 | the post-office pattern does not match at "PO" unless an "S" follows |
| Parser.FoldPoBoxesNoLower | src/parser.py:166-167 | PO-box folding keeps upper-case text upper-case |
| Parser.ShortenWords | src/parser.py:153-154 | the word rewrites keep upper-case text upper-case |
| Parser.CommaMatch | src/parser.py:157 | `\s*,\s*` matches at a position exactly when a whitespace run and then a comma follow, and takes the whitespace after the comma too |
| Parser.CommaSubNoComma | src/parser.py:157 | text without a comma is left unchanged |
| Parser.CommaSubAtFirst | src/parser.py:157 | up to the first comma, the text before it keeps everything but its trailing whitespace, and the comma with the whitespace on both sides becomes ", " |
| Parser.Pieces | src/parser.py:157 | the comma-free pieces between the commas, in order, which joined by "," give back the text |
| Parser.TidyCommasByPieces | src/parser.py:157 | the regex substitution equals the regex-free reading: each piece loses the whitespace next to a comma, and the pieces are joined by ", " |
| Parser.TidyCommas | src/parser.py:157 | the comma tidying keeps upper-case text upper-case and equals the piece-wise reading |
| Parser.TidyCommasTwoPieces | src/parser.py:157 | with one comma, the text before loses its trailing whitespace, the text after its leading whitespace, and ", " joins them |
| Parser.TidyCommasThreePieces | src/parser.py:157 | with two commas, the middle piece is stripped on both sides and ", " joins the three |
| Parser.TidyCommasSpacedTwo | src/parser.py:157 | two words with any whitespace around the comma between them become the words joined by ", " |
| Parser.TidyCommasSpacedThree | src/parser.py:157 | three words with any whitespace around the two commas become the words joined by ", " |
| Parser.TidyCommasExample | src/parser.py:157 | "123 MAIN ST  ,  AUSTIN  ,  TX 78701" becomes "123 MAIN ST, AUSTIN, TX 78701" |
| Parser.FoldPoBox | src/parser.py:160-167 | the PO-box folding keeps upper-case text upper-case |
| Parser.FoldPoBoxSteps | src/parser.py:166-167 | the folding is the dotted, then the post-office, then the plain substitution |
| Parser.FoldPoBoxAvoiding | src/parser.py:159-167 | text without a "P" in either case is left unchanged |
| Parser.PoBoxSettled | src/parser.py:162-167 | a "PO BOX" whose surroundings have no "P", with the text before ending outside a word and the text after starting outside one, survives the post-office and plain substitutions unchanged |
| Parser.FoldPoBoxDotted | src/parser.py:159-167 | a word-initial "P.O. BOX", "PO. BOX", "P.O BOX" or "PO  BOX", with optional dots and any whitespace run, becomes "PO BOX" and the text before and after is kept, when neither side has a "P", the text before ends outside a word and the text after starts outside one |
| Parser.FoldPoBoxPostOffice | src/parser.py:159-167 | a word-initial "POST OFFICE BOX", with any whitespace runs, becomes "PO BOX" and the text before and after is kept, under the same conditions |
| Parser.FoldPoBoxDottedExample | src/parser.py:161-167 | "P.O. BOX 123, AUSTIN" becomes "PO BOX 123, AUSTIN" |
| Parser.FoldPoBoxPostOfficeExample | src/parser.py:162-167 | "MAIL TO POST OFFICE BOX 45" becomes "MAIL TO PO BOX 45" |
| Parser.FoldPoBoxWideGapExample | src/parser.py:161-167 | "PO  BOX 7" becomes "PO BOX 7" |
| Parser.HandleEdgeCases | src/parser.py:117-169 | empty input gives ""; the output never has a lower-case letter |
| Parser.HandleEdgeCasesByRuns | src/parser.py:131-169 | the preprocessing equals cleaning, whole-run word replacement, comma tidying and PO-box folding |
| Parser.ReplaceWordRunsByTokens | src/parser.py:153-154 | on single-spaced tokens that are each one whole word or free of word characters, a whole-word rewrite replaces exactly the word tokens equal to the rule's word up to case and keeps every other token and every space |
| Parser.ReplaceRunsByTokens | src/parser.py:153-154 | on such text, when every replacement is a whole word, the rules in order act token by token: each token goes through every rule in turn and the tokens stay joined by single spaces |
| Parser.WordRewritesReplaceWithWords | src/parser.py:134-151 | every one of the sixteen replacements is a whole word |
| Parser.RewriteTokenAllMisses | src/parser.py:153-154 | a token whose upper-case form equals no rule's word goes through every rule unchanged |
| Parser.RewriteTokenAllNonWord | src/parser.py:153-154 | a token that is not one whole word goes through every rule unchanged |
| Parser.ShortenWordsByTokens | src/parser.py:133-154 | on single-spaced plain tokens, the sixteen rewrites act on each token on its own |
| Parser.HandleEdgeCasesExample | tests/test_parser.py:134-139 | "  123   Main   Street  ,  Austin  ,  TX  78701  " becomes "123 MAIN ST, AUSTIN, TX 78701": padding dropped, upper-cased, STREET shortened, commas tidied, nothing folded |
| Formatter.Abbreviate | src/formatter.py:347-360 | a word in no table is returned as is; the street table wins over the directional one, which wins over the unit one; any table value is an upper-case word |
| Formatter.StreetTypeValuesFixed | src/formatter.py:14-222 | every street-suffix abbreviation abbreviates to itself |
| Formatter.DirectionalValuesFixed | src/formatter.py:224-234 | every directional abbreviation abbreviates to itself |
| Formatter.UnitValuesFixed | src/formatter.py:236-259 | every unit abbreviation abbreviates to itself |
| Formatter.UspsValuesFixed | src/formatter.py:14-259 | for every key of the three tables, abbreviating twice is abbreviating once |
| Formatter.UspsStandardValues | src/formatter.py:14-259 | the tables of formatter.py are closed in that sense |
| Formatter.AbbreviateIdempotent | src/formatter.py:347-360 | with closed tables, abbreviating twice is abbreviating once |
| Formatter.StandardizeAbbreviations | src/formatter.py:332-360 | "" for empty input; otherwise the table value of the upper-cased, stripped text, or that text itself; the result is trimmed and upper-case |
| Formatter.StandardizeAbbreviationsIdempotent | src/formatter.py:332-360 | with closed tables, `standardize_abbreviations` is idempotent |
| Formatter.StandardizeIgnoresCase | src/formatter.py:345 | the result does not depend on the case of the input |
| Formatter.StandardizeToken | src/formatter.py:345-360 | on an upper-case token, standardizing is the table lookup |
| Formatter.StandardizeFirstWord | src/formatter.py:381-389 | with two or more words, the first is abbreviated and the rest are joined by single spaces |
| Formatter.StandardizeUnitDesignator | src/formatter.py:363-391 | "" for empty input; the result has no lower-case letter |
| Formatter.UnitDesignatorWords | src/formatter.py:373-391 | fewer than two words give the upper-cased, stripped text; otherwise the abbreviated first word and the rest single-spaced |
| Formatter.UnitDesignatorOneWordIdempotent | src/formatter.py:373-391 | standardizing a one-word designator twice is standardizing it once |
| Formatter.StandardizeUnitDesignatorIdempotent | src/formatter.py:363-391 | with closed tables, `standardize_unit_designator` is idempotent |
| Formatter.UspsUnitIdempotent | src/formatter.py:363-391 | the unit standardizer over the tables of formatter.py is idempotent |
| Formatter.FormattedUnit | src/formatter.py:306-311 | a unit is formatted iff `unit` is truthy, or both `unit_type` and `unit_number` are; a truthy `unit` goes through the unit standardizer, otherwise the value is the standardized type, a space and the number |
| Formatter.FormatUspsStandard | src/formatter.py:262-329 | `{}` gives `{}`; only street number, street name, unit, PO box, city, state and ZIP appear |
| Formatter.FormatHasField | src/formatter.py:275-329 | a field appears exactly when its formatted value exists, with that value |
| Formatter.FormatCopiesFields | src/formatter.py:277-327 | the street number and ZIP are copied verbatim, the PO box gets a "PO BOX " prefix, each present iff truthy in the input |
| Formatter.FormatUpperCasesPlace | src/formatter.py:317-323 | city and state are upper-cased, each present iff truthy in the input |
| Formatter.FormatAssemblesStreet | src/formatter.py:281-304 | `street_name` is present iff some street part is truthy, and is their space-join with prefix, suffix and type standardized |
| Formatter.FormatHasUnit | src/formatter.py:306-311 | a formatted unit appears iff `unit`, or both unit type and number, are truthy |
| Formatter.FormatStandardizesUnit | src/formatter.py:307-308 | a truthy `unit` wins, through the unit standardizer |
| Formatter.FormatAssemblesUnit | src/formatter.py:309-311 | without `unit`, the formatted unit is the standardized `unit_type`, one space and `unit_number` as written |
| Formatter.ReformatKeepsCopies | src/formatter.py:277-327 | formatting formatted output keeps the street number and ZIP |
| Formatter.ReformatKeepsPlace | src/formatter.py:317-323 | formatting formatted output keeps city and state |
| Formatter.ReformatKeepsStreetName | src/formatter.py:281-304 | formatting formatted output keeps the street name |
| Formatter.ReformatKeepsUnit | src/formatter.py:306-311 | with an idempotent unit standardizer, formatting formatted output keeps the unit |
| Formatter.ReformatStable | src/formatter.py:262-329 | formatting formatted output keeps street number, street name, city, state, ZIP and a unit that came from `unit` |
| Formatter.UspsReformatStable | src/formatter.py:262-329 | the same with the tables of formatter.py |
| Formatter.StreetSection | src/formatter.py:409-413 | one street part iff `street_name` is truthy: "number name" when the number is truthy too, else the name |
| Formatter.CityStateZip | src/formatter.py:423-430 | one part per truthy field among city, state and ZIP, each at its rank: city first, then state, ZIP last |
| Formatter.PoBoxSection | src/formatter.py:419-421 | one part iff `po_box` is truthy, and it is the PO box |
| Formatter.UnitSection | src/formatter.py:415-417 | one part iff `unit` is truthy, and it is the unit |
| Formatter.OutputSections | src/formatter.py:404-433 | no empty section; none iff none of street name, unit, PO box, city, state and ZIP is truthy; the street, unit and PO-box sections first, in that order, then the ", "-joined city, state and ZIP as the last section |
| Formatter.OutputLineFlat | src/formatter.py:432-435 | since both joins use ", ", the joined sections equal the flat ", "-join of every truthy part |
| Formatter.FormatOutputLine | src/formatter.py:394-435 | `{}` gives ""; otherwise the sections joined by ", ", which is also the flat ", "-join of street, unit, PO box, city, state and ZIP; empty iff none of these is truthy |
| Formatter.OutputLineDropsLoneNumber | src/formatter.py:410-413 | without a street name, the street number does not affect the line |
| Formatter.FirstLine | src/formatter.py:453-467 | at most one first line, never empty, present iff PO box, street name or unit is truthy; it is the PO box when there is one, else the street section and the unit joined by " " |
| Formatter.FormatMultiLineAddress | src/formatter.py:438-481 | `{}` gives none; at most two non-empty lines, no lines iff nothing printable is truthy; the first line (if any) comes first, and the city, state and ZIP joined by " " form the last line |
| Formatter.PoBoxHidesStreet | src/formatter.py:454-467 | with a PO box, street number, street name and unit do not affect the lines |
| Formatter.CityStateZipFull | src/formatter.py:423-433 | with all three present, the parts are city, state, ZIP, and their join puts the separator between each pair |
| Formatter.StreetAddressRendering | src/formatter.py:394-481 | a full street address without unit or PO box renders as "N NAME, CITY, ST, ZIP" and as the lines "N NAME" and "CITY ST ZIP" |
| Formatter.UnitAddressRendering | src/formatter.py:394-481 | with a unit added: "N NAME, UNIT, CITY, ST, ZIP", and the lines "N NAME UNIT" and "CITY ST ZIP" |
| Formatter.PoBoxAddressRendering | src/formatter.py:394-481 | a PO-box address renders as "BOX, CITY, ST, ZIP" and as the lines "BOX" and "CITY ST ZIP" |
| Formatter.CreateFormattedAddressResult | src/formatter.py:484-517 | `parsed` is the normalized tagger output, formatted and rendered; confidence from the parse; validity and issues from the validation; type defaults to "Unknown" |
| Utils.RFind | src/utils.py:124 | the last position of a character, or -1, with no occurrence after it |
| Utils.ExtensionIsSplit | src/utils.py:124 | a non-empty extension starts at the last dot of the final component, after a non-dot character, and contains no separator |
| Utils.SplitAtLastDot | src/utils.py:124 | such a last dot splits the path into stem and extension |
| Utils.ExtensionOfSplit | src/utils.py:124 | any split of that shape is the one POSIX `splitext` returns |
| Utils.NtExtension | src/utils.py:124 | the Windows `splitext`: an extension is a dot followed by characters that are neither dots nor separators, `\` counting as a separator beside `/` |
| Utils.NtExtensionWithoutBackslash | src/utils.py:124 | on a path without `\` the Windows and POSIX extensions agree |
| Utils.BackslashPathExtensions | src/utils.py:124 | `C:\in\.csv` has the POSIX extension `.csv` and no Windows extension |
| Utils.DotAfterNameExtension | src/utils.py:124 | with no `/`, the POSIX extension starts at the last dot when the path does not start with a dot |
| Utils.DotAfterBackslashNoNtExtension | src/utils.py:124 | a dot right after the last `\`, with no dot after it, gives no Windows extension |
| Utils.LeadingDotsNoExtension | src/utils.py:124 | leading dots do not start an extension: `.bashrc` and `..csv` have none |
| Utils.ValidateFileExtension | src/utils.py:110-125 | an empty path is rejected; otherwise accepted iff some allowed extension equals the path's extension ignoring case |
| Utils.CountValid | src/utils.py:300 | at most the number of results; all iff every result is valid; none iff none is |
| Utils.CountValidAppend | src/utils.py:300 | counting distributes over concatenation |
| Utils.SumConfidenceBounds | src/utils.py:305-308 | confidences in [0, 100] sum to between 0 and 100 per result |
| Utils.RateBounds | src/utils.py:302 | the success rate lies in [0, 100] and is 100 iff every result succeeded |
| Utils.AverageBound | src/utils.py:308 | an average of values in [0, 100] lies in [0, 100] |
| Utils.CalculateProcessingStats | src/utils.py:280-316 | all zeros for no results; `successful` counts the valid ones, `failed` the rest; the rate lies in [0, 100] and is 100 iff all are valid; the average lies in [0, 100] |
| Utils.FirstMatch | src/utils.py:186-188 | the first keyword the text contains, with none before it |
| Utils.FirstIndex | src/utils.py:187-189 | the first position of a column name |
| Utils.DetectColumns | src/utils.py:183-191 | the result is exactly the columns whose lower-cased name contains a keyword, without duplicates, ordered by first matching keyword and then by position |
| Utils.DetectStep | src/utils.py:186-189 | appending a newly matching column keeps the result duplicate-free and ranked |
| Utils.DetectAddressColumns | src/utils.py:160-191 | the same for the twelve address keywords |
| Utils.ColumnRole | src/utils.py:217-228 | the street test comes first; a city column is one that is not a street column and mentions "city"; other columns mention neither city, state nor a ZIP word |
| Utils.StateColumnIsStreet | src/utils.py:219 | "state" and "Postal_Code" are classified as street columns, because both contain "st" |
| Utils.FirstWithRole | src/utils.py:230-235 | the first column with a role, or none iff no column has it |
| Utils.NonEmpty | src/utils.py:245-272 | keeps only non-empty parts, drawn from the input, and is empty iff every part is; one part is kept iff it is non-empty |
| Utils.NonEmptyAppend | src/utils.py:245-272 | filtering distributes over concatenation, so with the one-part case each non-empty part is kept once, in order |
| Utils.NonEmptyOfFour | src/utils.py:245-272 | four texts filtered are the guarded appends of street, city, state and ZIP, in that order |
| Utils.RowTexts | src/utils.py:243-272 | one stripped cell text per chosen column |
| Utils.CombineRow | src/utils.py:239-275 | the joined row is trimmed and is "" iff every chosen cell is empty; with the four chosen columns it is the ", "-join of the street, city, state and ZIP texts, each included iff non-empty, in that order |
| Utils.JoinTrimmed | src/utils.py:275 | a ", "-join of trimmed non-empty parts is trimmed |
| Utils.CombineAddressColumns | src/utils.py:194-277 | one string per row, in row order; all "" without address columns; every row trimmed; otherwise row i is the ", "-join of its non-empty street, city, state and ZIP texts, in that order |
| Utils.CombineRowFull | src/utils.py:239-275 | with all four cells non-empty, the row is street, city, state and ZIP joined by ", " |
| Utils.CombineRowWithoutCity | src/utils.py:245-275 | with an empty city cell and the other three non-empty, the row is street, state and ZIP joined by ", " |
| Service.Recent | src/api/service.py:201-202 | keeps the last n elements, in order, or all when there are fewer |
| Service.UpdateStats | src/api/service.py:187-202 | one more processed; exactly one of valid or invalid grows; errors grow iff `has_error`; a positive confidence is appended and the last 1000 kept; the counters stay consistent |
| Service.Positives | src/api/service.py:198-199 | every kept score is positive |
| Service.RecentAppend | src/api/service.py:199-202 | truncating after every append keeps the same scores as truncating once at the end |
| Service.UpdatesFromStart | src/api/service.py:187-202 | from a fresh service, the counters count the calls and the scores are the most recent 1000 positive confidences in order |
| Service.SumBounds | src/api/service.py:175 | a sum of positive scores is positive and at most 100 per score |
| Service.GetStats | src/api/service.py:166-185 | the counters as kept; average 0 with no scores, positive iff there are scores, at most 100; `recent_error_count` is always 0 |
| Service.MeanBounds | src/api/service.py:174-176 | the mean of positive scores is positive and at most 100 |
| Service.Usps | src/api/service.py:56-79 | the service's validation stage is `validate_address`; parsing, normalization and formatting are the model's own stages |
| Service.UspsSound | src/api/service.py:68-72 | this model's validation reports no issues iff valid, and valid iff all three checks pass |
| Service.Judge | src/api/service.py:68-91 | with no components, all flags false and the single issue "No parsed components"; otherwise the validity, the three flags and the issues of the validation of the components |
| Service.Respond | src/api/service.py:54-113 | when the parse normalizes to components, the formatted text is the formatter's single line for that validation and the flags and errors are the validation's; when it normalizes to nothing (empty parse or labels that map to `{}`), "" with false flags and "No parsed components"; errors are empty iff all three flags hold; the update records validity, the parse confidence and whether there are errors; optional fields appear as requested |
| Service.AnswerFor | src/api/service.py:46-113 | an empty address gets the invalid-input response and counts as an invalid call with an error; otherwise valid iff no errors |
| Service.ProcessSingleAddress | src/api/service.py:27-121 | one call more in the statistics; errors and validity counted from the response; consistency kept |
| Service.ProcessBatch | src/api/service.py:123-164 | one result per address, in order, each the single-address response; `valid + invalid == total`; `valid` counts `is_complete`, `errors` counts non-empty errors; statistics grow by the batch |
| Service.Answers | src/api/service.py:145-149 | the reference for a batch: one response per address, in order, each the single-address response |
| Service.BatchStep | src/api/service.py:146-159 | one address appends its response; exactly one of `valid` and `invalid` grows, by completeness; `errors` grows iff it lists errors; one call more in the statistics |
| Cli.Assemble | cli.py:229-235 | the result reports the validity and issues of exactly the components it shows |
| Cli.ProcessSingleAddress | cli.py:209-235 | the result's original is the untouched input; its validity is that of its own components; an empty address gives an invalid, empty result |
| Cli.DropMissing | cli.py:175 | never longer than the column; only present cells, and every present cell kept; a column without gaps is kept whole, in order; a single cell is kept iff present |
| Cli.DropMissingAppend | cli.py:175 | dropping distributes over concatenation, so with the single-cell case each present cell is kept once, in column order |
| Cli.ErrorRecord | cli.py:188-202 | the record for a failed address: its original, not valid, confidence 0, one "Processing error" issue, type "Error" |
| Cli.Outcome | cli.py:185-202 | the processor's result, or the error record when it raised |
| Cli.RunAll | cli.py:175-206 | one record per address, in order |
| Cli.RunAllAppend | cli.py:204 | processing two runs in turn is processing them together |
| Cli.ProcessChunk | cli.py:181-202 | a chunk's records are its addresses processed in order |
| Cli.ProcessCsvFile | cli.py:144-206 | a missing column is an error; a zero chunk size makes `range` raise; a negative one processes nothing; any positive one gives every present address processed in order |
| Cli.Pipeline | cli.py:186 | the CLI's processor is its own pipeline, which never raises |
| Cli.RunAllOriginals | cli.py:184-202 | a processor that keeps each address as the original gives one record per input address, error records included |
| Cli.CsvRecordsMatchInputs | cli.py:175-235 | with the CLI pipeline, each CSV record's original is its input address |
| Cli.AcceptsInput | cli.py:72 | the batch command accepts a path iff its POSIX extension is `.csv` in any case |
| Cli.AcceptsInputOnWindows | cli.py:72 | on Windows: accepted iff the `ntpath` extension is `.csv` in any case, which agrees with `AcceptsInput` on every path without `\` |
| Cli.BackslashInputExample | cli.py:72-74 | `C:\in\.csv` is accepted under POSIX but refused on Windows, where it names a file `.csv` |

## Left out

- The `usaddress` tagger is not modelled. It is a statistical model, and every stage takes it as a parameter.
- I/O, logging, timestamps, `ensure_directory_exists`, `read_json_file`/`write_json_file` and the `write_*` output writers are left out. So are the click commands and `sys.exit`, apart from the `.csv` check of `batch`.
- `pd.read_csv` is not modelled. The table arrives as a map from column names to cells.
- The non-string input branches of the Python code are left out. The model is typed, so only the empty-string half of `not x or not isinstance(x, str)` exists.
- Unicode is not modelled. `upper`, `lower`, `strip`, `split`, `\s` and `\w` are ASCII.
- `round(x, 2)` in `get_stats` and `calculate_processing_stats` is left out. The model reports the unrounded values.
- `calculate_processing_stats` averages over all results, because every model result has a numeric confidence. The `isinstance` filter of the Python code has no counterpart.
- The service's `except Exception` branch is not modelled. No stage of the model raises, so the branch cannot be reached.
- The global service instance and `get_address_service` are left out.
- The API layer (FastAPI routes, models, middleware) is left out.
- Cli.ProcessCsvFile: `range(0, n, chunk_size)` with a negative chunk size is empty, so nothing is processed. The model states exactly that and no more.
- Cli.ProcessCsvFile: a zero chunk size is returned as an error value instead of a raised `ValueError`.
- Validator.ValidateAddress takes dicts keyed by the pipeline's own fields, so a `confidence` key cannot arise. In the Python code a string under that key would make `calculate_confidence_score` raise, but normalized components never carry it.
- Formatter.ReformatStable: a unit assembled from `unit_type` and `unit_number` is excluded. Formatting it again passes it through `standardize_unit_designator`, which can abbreviate a different first word.
- Utils.Extension: only `/` separates path components, as in `posixpath`; `Utils.ValidateFileExtension` and `Cli.AcceptsInput` use it. On Windows, for which the project also builds executables (scripts/build_executable.py:47-70), `os.path` is `ntpath`, where `\` separates components too. There `C:\in\.csv` has no extension and `batch` refuses it. `Utils.NtExtension` and `Cli.AcceptsInputOnWindows` state the Windows reading and where the two differ. Drive prefixes such as `C:` need no separate rule, since `ntpath.splitext` does not treat them specially.
- Validator.ValidateStreetNumber: the digit limit of `int()` is fixed at its default of 4300. An interpreter without the limit (unpatched 3.8 to 3.10) or with a different `PYTHONINTMAXSTRDIGITS` setting converts longer strings, and then the range test decides. `\d` matching non-ASCII digits is not modelled either: only ASCII digits are kept.
- safe_get and format_timestamp in src/utils.py are left out. They are trivial helpers that the core does not call.
- Parser.FoldPoBoxDotted and Parser.FoldPoBoxPostOffice describe one PO-box spelling at a time, in text that has no other "P". Text with several spellings, or with other words holding a "P" (such as "APT"), is covered only by the general `re.sub` model and by Parser.FoldPoBoxesNoLower, not by a closed-form statement.
- Parser.ShortenWordsByTokens covers text whose tokens are each one whole word or free of word characters. A token that mixes the two, such as "ST." or "4B-2", is covered only by the general whole-run model, Parser.RewriteWordsIsReplaceRuns.
