# ai-auto-test-cmd core, modelled in Dafny

`ai-auto-test-cmd` is a command-line tool that generates HTTP API test cases and
runs them. It reads a sample request body (JSON or XML), recovers the order of
its top-level keys, and mutates the sample into many variants. It can also
parse test cases written by an LLM (Dify) from a streaming response, and check
and generate field values under a TOML constraint file. Finally it turns test
cases into HTTP requests (with authentication headers, query parameters and a
JSON or XML body) and classifies the responses.

This project models that core and proves what it promises:

- `utils/data.go`
  - JSON key scanning and XML tag ordering.
  - XML escaping and formatting.
  - Type-aware mutation of values (`generateVariation`) and strings (`randomizeString`).
  - Fan-out of one document into test cases.
  - Rendering of cases as JSON, XML and CSV rows.
- `utils/constraints.go`
  - Validation of a constraint configuration, collecting every violation.
  - Time-zone offsets.
  - Constraint lookup.
  - The value generators.
  - Installing the configuration only when it is valid.
- `utils/dify.go`
  - The fold over the Dify event stream.
  - Splitting consecutive JSON objects and `$$$$`-delimited XML objects.
  - Detectors for both formats, fenced-block fallback and de-duplication.
  - API-key masking and random strings.
- `cmd/shared.go`: parameter checks, authentication headers, the request builder with scheme and query handling, response classification and the `<data>` XML renderer.
- `cmd/request.go`: CSV rows to test cases, value classification, plain request building and response classification.

## How the model treats the environment

- **Randomness** is an explicit oracle. A `Draws` value holds a stream of naturals for the current node and sub-oracles for array items and object fields, so every generator is a function of its draws.
- **Go panics** (`rand.Int63n` with a non-positive bound, an index out of range) are an explicit `Panicked` outcome.
- **Go map iteration order** is a parameter, a sequence listing the keys exactly once (`Values.IsOrderOf`). Because `GenerateTestCases` stores that order as the key order, the order recovered by the parsers is lost, and the model shows it.
- **Foreign code is a function parameter**: `encoding/json` marshalling and decoding, `strconv.ParseFloat` where its parsed value is used (`parseValue` in cmd/request.go), the JSON/XML format validators, base64, the Dify event decoder, and Go's float formatting. Where only its success matters (type tags and string variation in utils/data.go), `Text.IsFloatSyntax` states which strings it accepts.
- **Float64 arithmetic** appears in two places. For `int64(float64(v)*0.5)` the model rounds the integer to float64 (round half to even on 53 significant bits), halves it exactly and truncates toward zero. For `randomizeString`'s bounds `int(float64(n)*0.9)` and `int(float64(n)*1.1)` the model takes the products exactly (`n*9/10`, `n*11/10`), which agrees with Go for byte lengths below 2^49 (see "## Left out").
- **Strings are sequences of runes.** Where the source measures or slices bytes (`randomizeString`, `validateTimezoneOffset`, `parseTimezoneOffset`), the model works on the UTF-8 encoding (`Text.Utf8Bytes`), each byte held as the rune of the same value; `strconv.Quote` (`Text.Quote`) decodes those bytes back into runes for error messages.

## Model

| member | source | states |
|---|---|---|
| Models.Milliseconds | utils/http.go:24-31 | a duration in nanoseconds becomes whole milliseconds, truncated toward zero for either sign |
| Models.ResponseResult | cmd/request.go:268-284 | a result is a success exactly when the response has no transport error and a 2xx status; a failure carries the transport error's text and nothing else; the case ID is copied |
| Random.Pick | utils/data.go:590 | a draw for `rand.Intn(n)` always lies in [0, n) |
| Values.Wrap | utils/data.go:590-606 | a sum is brought back into the range of its Go integer kind, differing from it by a multiple of the kind's modulus |
| Values.TruncHalf | utils/data.go:584-585 | `int64(float64(v)*0.5)` keeps the sign of v (zero for zero); up to 2^53 in magnitude it is v halved toward zero, so 2·|r| ≤ |v| ≤ 2·|r| + 1 |
| Values.RoundExact | utils/data.go:585 | every magnitude up to 2^53 converts to float64 exactly |
| Values.TruncHalfRounds | utils/data.go:585 | above 2^53 the conversion rounds first: 2^53 + 3 becomes 2^53 + 4, so the half is 2^52 + 2 where exact halving gives 2^52 + 1 |
| Values.RoundScaled | utils/data.go:585 | in the binade [2^(53+k), 2^(54+k)) float64 rounding of 2^k·m + rem is 2^k times the rounding of m, with a non-zero rem acting as the sticky bit |
| Values.RoundNearest | utils/data.go:585 | in the binade [2^(53+k), 2^(54+k)) the rounded value is a multiple of the float64 spacing 2^(k+1) and lies within half a spacing of the input |
| Values.RoundInt64 | utils/data.go:585 | an int64 magnitude converts exactly up to 2^53, never above 2^63, to 2^63 exactly from 2^63 − 512 on, and to at least 2 from 2 on |
| Values.TruncHalfInt64 | utils/data.go:584-585 | on int64 inputs the half lies in [−2^62, 2^62], equals 2^62 exactly from 2^63 − 512 on, is zero exactly for −1, 0 and 1, and is negative below −1 |
| Text.FloatSpecials | utils/data.go:539 | `strconv.ParseFloat` accepts `NaN` and `-Inf` in any ASCII case but rejects a signed `nan` |
| Text.ScaledAtLeastMeans | utils/data.go:539 | the range test behind `Text.IsFloatSyntax` is exactly significand × 10^scale ≥ 2^1024 − 2^970, the least value that rounds to infinity |
| Text.Utf8Ascii | utils/constraints.go:665 | a string is ASCII exactly when its UTF-8 bytes are, and then its bytes are its runes, so byte length and byte indexing agree with rune length and rune indexing |
| Text.DecodeEncoded | utils/constraints.go:674-677 | decoding the UTF-8 bytes of any rune, followed by any further bytes, gives back that rune and its byte width |
| Text.QuotePlain | utils/constraints.go:674-682 | `strconv.Quote` of printable ASCII without `"` or `\` is that text between double quotes |
| Values.SortedKeys | utils/data.go:862-864 | `%v` prints a map's fields in sorted key order: the key list is exactly the key set, sorted |
| Variation.CharsetShape | utils/data.go:777-781 | the rewrite alphabet holds exactly the 62 ASCII letters and digits |
| Variation.NewLen | utils/data.go:713-728 | the target length lies in [max(1, 0.9n), max(that, 1.1n)] for a byte length n |
| Variation.Shuffling | utils/data.go:766-774 | Fisher–Yates swapping keeps the positions a permutation of their input |
| Variation.PositionsPermute | utils/data.go:766-774 | the shuffled position array is a permutation of 0..len-1 with no repeated index |
| Variation.ChangeCount | utils/data.go:760-763 | the number of rewritten positions is max(1, len/2), never more than the length |
| Variation.Rewriting | utils/data.go:777-781 | rewriting positions keeps the rune count |
| Variation.RandomizeString | utils/data.go:710-784 | the in-place resize, shuffle and rewrite loops compute exactly the functional specification `Randomized` |
| Variation.ResizeRunes | utils/data.go:738-757 | the insert and delete loops on the rune slice compute the specification's resized string and leave the oracle at the same point |
| Variation.ShufflePositions | utils/data.go:766-774 | the swap loop on the position array yields the specification's permutation |
| Variation.RewriteRunes | utils/data.go:777-781 | the rewrite loop over the first positions yields the specification's rewritten runes |
| Variation.ResizedShape | utils/data.go:713-757 | the target length obeys the 0.9/1.1 bounds; byte-length growth adds runes and shrinkage removes them, down to one rune; every rune comes from the input or the alphabet |
| Variation.RandomizedRewrites | utils/data.go:760-781 | exactly max(1, len/2) distinct positions are rewritten with alphabet characters and every other rune is kept |
| Variation.RandomizedChars | utils/data.go:713-716 | the result is never empty (the empty string becomes one alphabet character) and holds only input runes or alphabet characters |
| Variation.RandomizedAsciiLength | utils/data.go:713-757 | for ASCII input the rune length of the result lies within the 0.9/1.1 bounds |
| Variation.Spread | utils/data.go:584-589 | for v >= 0 the spread is at least 1, and up to 2^53 it is max(1, trunc(v/2)) |
| Variation.VaryPieces | utils/data.go:644-653 | varying the comma-separated pieces keeps their number |
| Variation.VaryKeepsShape | utils/data.go:579-706 | a variation that does not panic keeps the shape: the same integer or float kind, array length, map key set, and recursively the shape of every element |
| Variation.SpreadSign | utils/data.go:585-590 | `rand.Int63n` receives a non-positive bound, with or without the raise to 1, exactly when v <= -2 or v >= 2^63 − 512, where `float64(v)` rounds to 2^63 and `2*variation+1` wraps in int64; below that the spread is under 2^62 |
| Variation.JitterWithin | utils/data.go:587-590 | when 0 <= w < 2^62 and v ± w fit in int64 the jitter does not panic and lies in [v-w, v+w] |
| Variation.VaryInt | utils/data.go:582-605 | an integer panics exactly when v <= -2 or v >= 2^63 − 512; otherwise it keeps its kind, and for v >= 0 without overflow it lies in [v-w, v+w] with w the spread (`Variation.Spread`) |
| Variation.VaryIntString | utils/data.go:654-658 | an integer string panics exactly when it is <= -2 or >= 2^63 − 512; for n >= 0 without overflow it becomes the decimal text of a value within ±`TruncHalf(n)`, with no minimum spread |
| Variation.VaryCommaString | utils/data.go:644-653 | a comma-separated string never panics and keeps its comma count |
| Variation.VaryScalars | utils/data.go:676-704 | a bool is returned unchanged or negated; null and unknown values are returned unchanged |
| JsonKeys.StateAt | utils/data.go:456-503 | the scanner's start index never passes the position, and every emitted key is non-empty |
| JsonKeys.ScanKeys | utils/data.go:451-503 | the character loop over quote flag, depths, start and pending key emits exactly the keys of the scanner specification |
| JsonKeys.ExtractJSONKeys | utils/data.go:440-505 | the method computes `JsonKeys`: nothing unless the stripped text is braced, else the keys scanned between the braces |
| JsonKeys.StrippedHasNoBlanks | utils/data.go:442-445 | after stripping, no space, newline or tab is left |
| JsonKeys.StrippedIdle | utils/data.go:442-445 | stripping leaves text without blanks unchanged |
| JsonKeys.KeysNeedBraces | utils/data.go:446-449 | keys come only from text that, once stripped, starts with `{` and ends with `}` |
| JsonKeys.KeysOnlyGrow | utils/data.go:456-503 | scanning further never removes an emitted key |
| JsonKeys.EmitsOnlyAtTopLevelColon | utils/data.go:478-501 | a character emits a key if and only if it is a `:` outside quotes at depth zero with a pending key, and then exactly one key is appended |
| JsonKeys.EscapedQuoteIgnored | utils/data.go:466-468 | a quote preceded by a backslash changes no scanner state |
| JsonKeys.ClosingQuoteSetsKey | utils/data.go:466-477 | a closing top-level quote leaves quotes and makes the quoted text the pending key |
| JsonKeys.FlatObjectKeys | utils/data.go:440-505 | for a flat object of well-formed fields, the recovered keys are exactly the field names in source order |
| JsonKeys.BracedKeys | utils/data.go:442-505 | a braced body without blanks yields the keys its scan emits |
| XmlKeys.FirstIndex | utils/data.go:83-89 | the first occurrence of a name is found exactly when the name occurs |
| XmlKeys.ExtractXMLKeys | utils/data.go:63-93 | the keys have no duplicates, are exactly the accepted names (not `?xml`, no `:`) among the matches, and follow first-occurrence order |
| XmlText.EscapeIsPerRune | utils/data.go:879-886 | the chained replacements escape each rune independently |
| XmlText.EscapeIsChain | utils/data.go:879-886 | the replacements applied in source order (`&` first) are the escaping function |
| XmlText.EscapeIsReplaced | utils/data.go:879-886 | the escaping equals the five `strings.ReplaceAll` calls in order |
| XmlText.EscapeXMLValueWellEscaped | utils/data.go:879-886 | the result holds none of `< > " '`, and every `&` starts one of the five entities |
| XmlText.UnescapeEscape | utils/data.go:879-886 | unescaping the five entities gives back the original value |
| XmlText.BreakTagsNoAdjacent | utils/data.go:1028-1032 | after formatting no `><` remains |
| XmlText.FormatXMLIdempotent | utils/data.go:1028-1032 | formatting never fails, leaves no `><`, and formatting twice equals formatting once |
| Data.TypesOf | utils/data.go:519-560 | one type tag is recorded for every key of the document, and for no other key |
| Data.TypeTagPrefixes | utils/data.go:519-560 | a tag starts with `int` exactly for integers and comma-free integer strings, and with `float` exactly for floats and comma-free float strings that are not integers |
| Data.VaryPanicsIff | utils/data.go:579-706 | varying a value panics exactly when it holds, at any depth, an integer or comma-free integer string that is <= -2 or >= 2^63 − 512 |
| Data.GeneratedPanicAt | utils/data.go:562-569 | a panic while varying any case aborts the whole fan-out |
| Data.GeneratedIs | utils/data.go:562-569 | the fan-out is the sequence of the per-case variations |
| Data.GeneratedShape | utils/data.go:508-576 | a fan-out returns exactly `count` cases, each with the input's key set and each field of the input's shape |
| Data.GeneratedPanics | utils/data.go:508-576 | the fan-out panics exactly when count is negative, or positive with a field that panics |
| Data.Present | utils/data.go:832-836 | the listed keys are exactly those of the key order that the data holds |
| Data.BodySkipsMissing | utils/data.go:832-836 | keys absent from the data produce no XML |
| Data.CleanKeyRunes | utils/data.go:838-840 | tag names keep their length, with every space and `-` mapped to `_` and nothing else changed |
| Data.StringEntry | utils/data.go:842-849 | a string field renders as an indented element of its cleaned name whose text is well escaped and reads back to the value |
| Data.ConvertToJSONRows | utils/data.go:890-914 | no cases give no rows; otherwise a `JSON` header row and one single-cell row per case |
| Data.CsvRow | utils/data.go:937-1002 | each CSV row has one cell per header key |
| Data.CsvShape | utils/data.go:917-1010 | the CSV has a header row of the keys and one row per case, every row as wide as the header, each cell the formatted value of its key |
| Data.CellKinds | utils/data.go:947-1002 | an `array-string` value is written verbatim, an `int` value as its decimal text, and a key unknown to both the types and the case as `<nil>` |
| Data.FormatCsvRow | utils/data.go:937-1002 | the per-key cell loop builds exactly the specification row |
| Data.CsvRowsFrom | utils/data.go:917-1010 | rows built header-first and then case by case are the CSV specification |
| Data.FindRoot | utils/data.go:50-56 | the root loop returns the first entry, in iteration order, that holds an object, or else the whole document |
| Data.Globals.ParseJSON | utils/data.go:412-437 | a decode error is reported with its prefix; otherwise the decoded map is returned, and the recovered keys replace the stored order only when there are any |
| Data.Globals.ParseXML | utils/data.go:30-90 | a decode error is reported with its prefix; otherwise the root map is returned and the stored order becomes the accepted tag names without duplicates, in order of first occurrence, or map order when there are none |
| Data.Globals.GenerateTestCases | utils/data.go:508-576 | the method returns the fan-out; on success the stored key order becomes the map-iteration order (a permutation of the keys) and the types are recorded; on a panic the globals are untouched |
| Data.Globals.ConvertMapToXML | utils/data.go:815-876 | the document always starts with the prologue and `<root>`, ends with `</root>`, follows the stored key order and never returns an error |
| Data.Globals.ConvertToXMLRows | utils/data.go:787-812 | no cases give no rows; otherwise an `XML` header row and one row per case holding its XML document |
| Data.Globals.ConvertToCSV | utils/data.go:917-1010 | the rows are the CSV specification over the stored key order and stored types |
| Data.FanOut | utils/data.go:562-569 | the case loop returns exactly the fan-out specification |
| Data.RecordTypes | utils/data.go:519-560 | the type loop records exactly the tag of every key |
| Data.VaryFields | utils/data.go:691-697 | when no field panics, an object varies into one with the same keys, each field varied by its own oracle |
| Data.CasePanics | utils/data.go:691-697 | one panicking field makes the whole object's variation panic |
| Data.CaseFromFields | utils/data.go:691-697 | a map filled key by key with the field variations is the object's variation |
| Data.VaryCase | utils/data.go:564-568 | the per-key loop succeeds exactly when the object's variation does not panic, and then returns that variation |
| Data.WriteBody | utils/data.go:832-873 | the builder loop over the key order writes exactly the specified body |
| Data.WriteEntry | utils/data.go:838-871 | one entry is written exactly as specified for its value kind |
| Data.DocumentFrame | utils/data.go:817-875 | a document assembled from head, body and tail starts with the head and ends with the tail |
| Data.WriteNested | utils/data.go:850-858 | nested map lines are written exactly as specified |
| Data.WriteItems | utils/data.go:859-865 | array item lines are written exactly as specified |
| Constraints.ErrorText | utils/constraints.go:55-57 | a validation error reads `字段 '<field>': ` followed by its message |
| Constraints.Error | utils/constraints.go:63-76 | no errors, one error and several errors give three distinct texts: a fixed text, the single message, or a count header followed by the messages joined by newlines |
| Constraints.ErrorsTextLines | utils/constraints.go:63-76 | the text for several errors splits back, after its header, into exactly the individual messages |
| Constraints.IntegerErrors | utils/constraints.go:256-278 | the integer checks report exactly one error for max < min and one more whenever precision is set, and nothing otherwise |
| Constraints.FloatErrors | utils/constraints.go:281-305 | the float checks are clean exactly when max >= min and precision is absent or within [0, 10]; there are at most two errors |
| Constraints.FieldErrorsDispatch | utils/constraints.go:101-140 | an empty type gives one error, an unknown type one error, the other listed types none, and only date, datetime, integer and float get further checks |
| Constraints.ValidateFieldConstraint | utils/constraints.go:101-140 | the appending method returns exactly the field's error list |
| Constraints.EntryError | utils/constraints.go:312-381 | an entry contributes one error exactly when it is blank, or is an email domain without `.` |
| Constraints.EntryErrorsCount | utils/constraints.go:312-381 | the number of entry errors equals the number of flawed entries |
| Constraints.ListErrorsNone | utils/constraints.go:312-381 | a list is clean exactly when it is non-empty and no entry is flawed |
| Constraints.BuiltinErrorsNone | utils/constraints.go:308-385 | the builtin data is clean exactly when all four lists are non-empty with no blank entry and every email domain holds a `.` |
| Constraints.CheckList | utils/constraints.go:312-381 | the entry loop returns exactly the list's errors |
| Constraints.ValidateBuiltinData | utils/constraints.go:308-385 | the four list checks together return exactly the builtin errors |
| Constraints.CollectedHas | utils/constraints.go:83-87 | every error of every visited field appears in the collected list |
| Constraints.CollectedEmpty | utils/constraints.go:83-87 | the collected list is empty exactly when every field is clean |
| Constraints.ConfigErrorsComplete | utils/constraints.go:79-98 | every field error and every builtin error is reported, and the report is empty exactly when the configuration is valid |
| Constraints.ValidateConstraintConfig | utils/constraints.go:79-98 | nil is returned exactly when there is no error, and otherwise the full list |
| Constraints.ValidInstallable | utils/constraints.go:430-434 | a valid configuration satisfies the registry's invariant |
| Constraints.Registry.Load | utils/constraints.go:388-436 | the global configuration is replaced exactly when the input decodes and validates; on any failure it is unchanged and the error names the failing stage |
| Constraints.SimpleName | utils/constraints.go:462-464 | the last dot-segment holds no `.` and ends the name |
| Constraints.FirstPresent | utils/constraints.go:445-477 | the lookup finds nothing exactly when no candidate is stored, returns a stored candidate's constraint, and returns the first candidate's when it is stored |
| Constraints.FindIsFirstCandidate | utils/constraints.go:445-477 | without a configuration the lookup is nil; otherwise it is the first stored candidate among exact name, lowercased name, last segment and lowercased segment |
| Constraints.ValidateTimezoneOffset | utils/constraints.go:664-703 | an offset that is not six bytes long gets the format error; an accepted offset is ASCII, so its bytes are its runes |
| Constraints.ValidateShaped | utils/constraints.go:664-703 | when the bytes have a sign, `:` at byte 3 and two Atoi-readable fields, the offset is accepted exactly when hours are 0–23, minutes 0–59 and the signed total within [−720, 840] minutes |
| Constraints.TimezoneOffsetAccepts | utils/constraints.go:664-703 | an offset is accepted exactly when it has the `±HH:MM` layout, hours 0–23, minutes 0–59, and signed minutes within [−720, 840] |
| Constraints.TwoDigitParts | utils/constraints.go:664-682 | a six-rune offset with digits in place has the accepted layout, and its parts read as their two-digit values |
| Constraints.SignedHoursAccepted | utils/constraints.go:674-686 | `++5:00` is accepted, because `strconv.Atoi` takes a sign inside the hour field |
| Constraints.OffsetCountsBytes | utils/constraints.go:664-667 | `+é0:00`, six runes but seven bytes, gets the format error |
| Constraints.OffsetSlicesBytes | utils/constraints.go:674-677 | `+é:00` is six bytes with `:` at byte 3; it fails on the hour bytes, the two bytes of `é`, which the Atoi error quotes as `"é"` |
| Constraints.OffsetQuotesHours | utils/constraints.go:674-677 | the hours error of `+"1:00` quotes the field with its `"` escaped, as `"\"1"` |
| Constraints.ParseTimezoneOffset | utils/constraints.go:706-733 | an offset that is not six bytes long gets the format error naming it; a parsed offset is a whole number of minutes within ±(23 h 59 min) |
| Constraints.ParseAcceptsValidated | utils/constraints.go:706-733 | every accepted offset parses, to sign·(h·3600 + m·60) seconds, within −12 h..+14 h |
| Constraints.ParseWiderThanValidate | utils/constraints.go:706-733 | parsing accepts `+23:59`, which the validator rejects |
| Constraints.ValidateTimezone | utils/constraints.go:640-661 | empty and `UTC` are accepted, and a leading sign defers to the offset validator |
| Constraints.ChineseName | utils/constraints.go:736-749 | the name panics exactly when loaded first names exist but loaded last names are empty; otherwise it joins a first and a last name from the loaded or the default lists |
| Constraints.ChineseNameSafeWhenLoaded | utils/constraints.go:736-749 | a configuration that passed validation never makes the name generator panic |
| Constraints.PhoneNumberShape | utils/constraints.go:752-760 | a phone number is 11 ASCII digits starting with 1 and a second digit from 3 to 9 |
| Constraints.EmailDomains | utils/constraints.go:763-776 | the domain list is never empty |
| Constraints.Email | utils/constraints.go:763-776 | an email is a listed user name, a number below 1000, `@` and a loaded or default domain |
| Constraints.ChineseAddress | utils/constraints.go:779-794 | the address comes from the loaded list when there is one, else from the defaults |
| Constraints.IDCardShape | utils/constraints.go:797-816 | an ID number is 18 characters: a listed area code, a birthday in 1980–2005 with month 01–12 and day 01–28, three digits, and a digit or `X` |
| Constraints.ToInt | utils/constraints.go:823-828 | a float bound converts to an integer within int range |
| Constraints.IntegerValueRange | utils/constraints.go:819-842 | with defaults 1..100, max <= min returns min, and otherwise the value lies in [min, max] |
| Constraints.GenerateKeepsOriginal | utils/constraints.go:480-514 | no constraint, `keep_original` set, the type `keep_original` or an unknown type return the original value |
| Constraints.DatetimePanicsIff | utils/constraints.go:602-604 | for bounds `UnixNano` represents, `rand.Int63n(diff + 1)` panics exactly when the span is at least 2^63 − 1 ns, because the int64 difference or the added 1 wraps; otherwise the formatted time is returned |
| Constraints.DatetimeFrom1700Panics | utils/constraints.go:548-604 | a minimum of 1700-01-01T00:00:00Z under the default maximum panics, and the default span does not |
| Constraints.GeneratesDatetime | utils/constraints.go:495-496 | a datetime constraint panics exactly when the datetime generator does, and otherwise yields its text |
| Constraints.GenerateShapes | utils/constraints.go:480-514 | phone constraints yield 11-digit strings and ID-card constraints yield well-shaped ID numbers |
| Constraints.GeneratesPhone | utils/constraints.go:480-514 | a phone constraint yields the phone generator's value |
| Constraints.GeneratesIDCard | utils/constraints.go:480-514 | an ID-card constraint yields the ID generator's value |
| Dify.MaskAPIKey | utils/dify.go:382-389 | masking keeps the length; up to 8 characters become all `*`, longer keys keep their first and last four characters with `*` between |
| Dify.MaskHidesMiddle | utils/dify.go:382-389 | keys that agree on length and on the four characters at each end mask identically |
| Dify.RandomStringShape | utils/dify.go:404-423 | the string has exactly the requested length; on the random path every character is alphanumeric, and on the clock fallback (non-negative clock) every character is a digit |
| Dify.GenerateRandomString | utils/dify.go:404-423 | the byte-filling loop returns exactly the specified string, of the requested length |
| Dify.FillOutputsKeeps | utils/dify.go:264-277 | workflow outputs never overwrite text already collected |
| Dify.FillOutputsSnocFirst | utils/dify.go:264-277 | with nothing collected, the outputs supply the first string output in iteration order |
| Dify.FirstTextSnoc | utils/dify.go:264-277 | visiting one more output only matters while no string output has been found |
| Dify.FoldStops | utils/dify.go:142-311 | once the fold has aborted, later lines change nothing |
| Dify.FoldStep | utils/dify.go:142-311 | the fold over one more line is one more step |
| Dify.ReplaceSetsText | utils/dify.go:196-202 | `message_replace` with a non-empty answer replaces the collected text, and with an empty answer keeps it |
| Dify.WorkflowOnlyWhenEmpty | utils/dify.go:242-278 | `workflow_finished` changes the collected text only while it is empty, and then to the first string output |
| Dify.ErrorEventAborts | utils/dify.go:291-294 | an `error` event makes the whole call fail with its message |
| Dify.ErrorFoldAborts | utils/dify.go:291-294 | after an `error` event the fold ends aborted with that message |
| Dify.ErrorLine | utils/dify.go:291-294 | a decoded `error` line aborts the fold |
| Dify.SkippedLines | utils/dify.go:144-158 | lines without `data: `, with an empty payload, or that fail to decode change nothing |
| Dify.MessageCollectsNothing | utils/dify.go:167-175 | `message` events collect no text |
| Dify.EmptyTextWritesNothing | utils/dify.go:323-327 | empty collected text returns nil without writing |
| Dify.SavedTextIsCollected | utils/dify.go:313-332 | text is returned exactly when no error was seen and the collected text is non-empty, and it is the collected text |
| Dify.FillFromOutputs | utils/dify.go:264-277 | the loop over the outputs computes exactly the specified fill |
| Dify.ProcessStreamingResponse | utils/dify.go:135-333 | the event loop returns exactly the fold over the lines, finished with the scanner's error |
| DifyParse.SplitObjectsPieces | utils/dify.go:692-746 | every emitted piece is non-empty, trimmed and ends with `}` |
| DifyParse.EmitOnlyOnClose | utils/dify.go:699-745 | a piece is emitted exactly when a `}` outside strings brings the brace count back to 0 |
| DifyParse.StringLiteralIgnored | utils/dify.go:706-725 | braces inside a string literal, with backslash escapes, leave the brace count unchanged |
| DifyParse.FeedObject | utils/dify.go:699-745 | one well-formed object is emitted whole |
| DifyParse.SplitObjectsRoundTrip | utils/dify.go:692-746 | well-formed objects separated by whitespace are split back into exactly those objects, in order |
| DifyParse.SplitConsecutiveJSONObjects | utils/dify.go:692-746 | the scanning loop returns exactly the specification's pieces, each a closed trimmed object |
| DifyParse.ContainsConsecutiveIff | utils/dify.go:750-759 | detection holds exactly when, with spaces, newlines and tabs removed, the text contains `}{` |
| DifyParse.ContainsXMLIff | utils/dify.go:867-879 | detection holds exactly when the text contains `$$$$`, or both `<` and `>` |
| DifyParse.TrimmedPieces | utils/dify.go:843-852 | kept pieces are non-empty and trimmed |
| DifyParse.SplitXMLObjectsByDelimiter | utils/dify.go:837-863 | the splitting loop returns exactly the specified pieces |
| DifyParse.XMLObjectsShape | utils/dify.go:837-863 | pieces are trimmed and non-empty, every piece but the last keeps `$$$$`, and a lone piece is dropped exactly when it lacks `<` or `>` |
| DifyParse.InBlockLinesMembers | utils/dify.go:486-502 | a line is kept exactly when it lies inside a code fence |
| DifyParse.CollectFencedLines | utils/dify.go:483-502 | the toggling loop keeps exactly the fenced lines |
| DifyParse.ExtractFromText | utils/dify.go:652-688 | the extracted text is empty or detected, and when it differs from the trimmed text it is the joined fenced lines |
| DifyParse.ValidTrimmed | utils/dify.go:620-648 | kept pieces are non-empty and pass the validator |
| DifyParse.ValidOnlyMembers | utils/dify.go:504-518 | a line is kept exactly when it passes the validator |
| DifyParse.DedupSnoc | utils/dify.go:472-477 | adding an unseen candidate extends the de-duplicated list, and a seen one leaves it |
| DifyParse.AddUnseen | utils/dify.go:473-476 | the seen map and the kept list stay in step |
| DifyParse.KeepFirst | utils/dify.go:441-479 | the kept list has no duplicates, holds every candidate and follows first-occurrence order |
| DifyParse.FallbackKeeps | utils/dify.go:483-519 | the fallback keeps exactly the fenced lines that pass the validator |
| DifyParse.KeepFencedLines | utils/dify.go:483-519 | the fallback loop de-duplicates the valid fenced lines |
| DifyParse.ParseGeneratedTestCases | utils/dify.go:436-522 | the result de-duplicates the candidates in first-occurrence order |
| Shared.ValidateRequestParams | cmd/shared.go:37-55 | the parameters fail exactly when the URL is empty or not exactly one of XML and JSON is chosen, with the matching message |
| Shared.BodyFlags | cmd/shared.go:120-121 | exactly one body format is chosen, XML when asked |
| Shared.GetFormatName | cmd/shared.go:159-166 | XML wins over JSON, and neither gives the "unspecified" name |
| Shared.TruncateString | cmd/shared.go:169-174 | the result is the whole string when it fits, else its prefix of maxLen; a negative maxLen panics |
| Shared.ApiKeyHeader | cmd/shared.go:322-331 | a key `Name:Value` splits at its first `:`, and other keys go under `X-API-Key` |
| Shared.ApplyAuthConfig | cmd/shared.go:303-348 | the header writes return exactly the specified header map and error |
| Shared.AuthorizationHeader | cmd/shared.go:304-320 | Basic with a `:` overrides Bearer, Bearer is used otherwise, and without either `Authorization` is untouched |
| Shared.ApiKeyWritten | cmd/shared.go:322-331 | a configured API key ends up under its header name |
| Shared.ParseHeaderReadsBack | cmd/shared.go:334-346 | `Name: Value` parses back into its trimmed name and value |
| Shared.CustomStopsAtFirstBad | cmd/shared.go:334-346 | custom headers are applied up to the first malformed one, whose error is returned with earlier writes kept |
| Shared.CustomLastWins | cmd/shared.go:334-346 | with only well-formed custom headers, each name holds its last value and other headers keep theirs |
| Shared.WithScheme | cmd/shared.go:186-190 | `http://` is prepended unless the URL already starts with `http://` or `https://` |
| Shared.QueryReadsBack | cmd/shared.go:281-289 | the query is the parameters joined by `&` after `?`, and splitting it gives the parameters back |
| Shared.FormatBody | cmd/shared.go:204-238 | a content type is set exactly when some body format is chosen |
| Shared.JsonWinsOverXml | cmd/shared.go:204-238 | with both flags the JSON branch wins, and `_json_content` is used verbatim when present |
| Shared.XmlBody | cmd/shared.go:204-238 | the XML branch sends `_xml_content` verbatim or the rendered document, as `application/xml` |
| Shared.CaseHeaders | cmd/shared.go:194-298 | non-POST requests get `Accept`, POST and GET a content type, and every other authentication header survives |
| Shared.OtherMethodsEmpty | cmd/shared.go:277-280 | methods other than POST and GET get an empty body and only `Accept` added |
| Shared.FillBody | cmd/shared.go:204-276 | the body branch sets exactly the specified body and content type |
| Shared.BuildRequest | cmd/shared.go:194-298 | one request carries the query-extended URL, the uppercased method, the timeout and the specified headers and body |
| Shared.BuildHTTPRequestsWithAuth | cmd/shared.go:185-300 | an authentication error is returned exactly when there is a case to build; otherwise one request per case, in order, with the scheme added |
| Shared.ProcessResponses | cmd/shared.go:442-471 | more responses than cases panic; otherwise one result per response with success iff no error and a 2xx status, and empty results for the rest |
| Shared.ResultWithRequest | cmd/shared.go:448-468 | the request body is copied only when a request exists at that index |
| Shared.ConvertToXML | cmd/shared.go:351-394 | the builder returns exactly the `<data>` document and never an error |
| CmdXml.EscapeMarkupPerRune | cmd/shared.go:382-384 | escaping `& < >` acts rune by rune |
| CmdXml.EscapeMarkupReadsBack | cmd/shared.go:376-386 | JSON text escaped for `& < >` holds no `<` or `>` and reads back unchanged |
| CmdXml.QuotesOnlyInJson | cmd/shared.go:366-386 | JSON-encoded values keep their quotes, while string values never contain `"` or `'` |
| CmdXml.DataXmlFrame | cmd/shared.go:351-394 | the document always starts with the prologue and `<data>` and ends with `</data>` |
| CmdXml.DataXmlHasEveryField | cmd/shared.go:351-394 | every data key has its element in the document |
| CmdXml.StringFieldReadsBack | cmd/shared.go:366-373 | a string value is well escaped and reads back |
| CmdXml.ComplexFieldReadsBack | cmd/shared.go:376-386 | a complex value's JSON text reads back with no brackets left |
| CmdXml.WriteField | cmd/shared.go:358-389 | one field is written exactly as specified |
| CmdXml.WriteFields | cmd/shared.go:357-390 | the builder loop writes exactly the specified fields |
| Request.ParseValue | cmd/request.go:191-215 | integer text becomes an integer first; a string result is the input itself or a JSON string |
| Request.ParseValueInt | cmd/request.go:193-195 | every int64's decimal text parses back to that integer |
| Request.WordIsBool | cmd/request.go:202-205 | a boolean word that no float parser accepts becomes a boolean |
| Request.ParseValueBools | cmd/request.go:202-205 | `true` and `false` become booleans |
| Request.Columns | cmd/request.go:171-174 | the keys are exactly the header names |
| Request.RowData | cmd/request.go:171-174 | a row's data has exactly the header names as keys |
| Request.ColumnsLastWins | cmd/request.go:172-174 | a header that does not repeat later names its own column's value |
| Request.RowDataLastColumnWins | cmd/request.go:171-174 | duplicate headers collapse with the later column winning |
| Request.CsvIdsDistinct | cmd/request.go:177 | different rows get different case IDs |
| Request.FirstMismatch | cmd/request.go:165-168 | the first row whose width differs from the header's |
| Request.FirstMismatchIs | cmd/request.go:165-168 | the first mismatching row is unique |
| Request.FillRow | cmd/request.go:171-174 | the inner loop fills exactly the row's data |
| Request.ParseCSVToTestCases | cmd/request.go:157-188 | fewer than two rows fail; the first width mismatch fails naming row i+2; otherwise one case per data row, in order, with IDs `test_1`, `test_2`, … |
| Request.PostAgreesWithShared | cmd/request.go:226-245 | a POST built here equals the shared builder's request for the same format without authentication or query |
| Request.GetHasNoBody | cmd/request.go:246-250 | a GET gets an empty body, only `Accept`, and the URL unchanged |
| Request.BuildHTTPRequests | cmd/request.go:218-262 | one request per case with the URL unchanged and the method uppercased |
| Request.ProcessResponses | cmd/request.go:265-288 | more responses than cases panic; otherwise one result per response, success iff no error and a 2xx status |
| Request.ConvertToXML | cmd/request.go:362-410 | the builder returns exactly the `<data>` document and never an error |

## Left out

- Floats:
  - the float branches of `generateVariation` (utils/data.go:607-640, 659-670) return an oracle-chosen literal of the same kind;
  - `FormatFloat` in `ConvertToCSV`, `generateFloatValue` and `applyFloatPrecision` are parameters or omitted;
  - float values are kept as their `%v` text.
- Date and datetime validation, parsing and formatting (utils/constraints.go:143-253, 517-637): they depend on Go time layouts, so the checks are a `Library` parameter, generated dates and datetimes are oracle-chosen text, and the parsed datetime bounds are an oracle (`Constraints.DatetimeSpan`). Only the `rand.Int63n` step of `generateDatetimeValue` is modelled, with its int64 wrap and panic. IANA zone names in `ValidateTimezone` are an oracle.
- Constraints.FieldConstraint holds the TOML `min`/`max` bounds as finite reals. NaN and the infinities, which TOML floats can hold, are not modelled. With a NaN bound Go's `max < min` test is false, so `validateIntegerConstraint` and `validateFloatConstraint` report nothing, and `int(NaN)` in `generateIntegerValue` is −2^63 on amd64. The statements of `Constraints.IntegerErrors`, `Constraints.FloatErrors` and `Constraints.ToInt` hold for finite bounds only.
- Foreign decoders and encoders are parameters: `encoding/json`, `encoding/xml`, base64, `strconv.ParseFloat` in `parseValue`, and the JSON/XML format validators. This covers `XMLToMap`, `simplifyXMLMap`, `nodeToMap` and `convertNumbers`. It also covers `parseJSONArrayTestCases`/`extractJSONArrayFromText`, which appear only through a decoder parameter.
- The regular expression in `extractXMLKeys` is replaced by its sequence of matches.
- File reading, TOML decoding, CSV writing (`saveTestCasesToCSV`, `saveResults`) and printing (`printDebugInfo`, `displayResults`, `printResponseDetails`) are left out.
- The network, concurrency and sending are left out: `SendConcurrentRequests`, the HTTP call in `GenerateTestCasesWithDify`, and reading the stream. The stream is a sequence of lines plus an optional scanner error.
- The command wiring is left out: cobra flags, `os.Exit`, `executeBatchRequests`, `executeGeneratedTestCases`, and `executeTestCasesDirectly` apart from its flag choice (`Shared.BodyFlags`).
- `generateUserID` is left out: it reads the clock.
- Both `convertToXML` versions always return a nil error, so the XML→JSON fallbacks are unreachable and not modelled.
- Randomness: each value node draws from its own stream, where Go uses one global stream in map-iteration order. The set of reachable outcomes is the same.
- Shared.ApplyAuthConfig returns the new header map rather than updating the caller's map in place.
- Shared.TruncateString slices runes, not bytes; it agrees with the source on ASCII text.
- Dify.MaskAPIKey works on runes, not bytes; it agrees with the source on ASCII keys.
- Request.ParseValue models `strconv.Atoi` on 64-bit integers and takes the float parser as a parameter. Booleans are proved only for parsers that accept float syntax alone.
- Text.IsFloatSyntax covers decimal forms, with the out-of-range check of 2^1024 − 2^970, and the `inf`/`infinity`/`nan` words (a sign only before the infinities); it does not cover hexadecimal floats or `_` digit separators, and it reads exponents exactly where Go stops accumulating them at 10000 digits' worth.
- Text.ToLower maps ASCII, Latin-1 and the few runes listed at `LowerRune` (Kelvin sign, `İ`, Ångström sign, capital sharp s); letters of other scripts keep their case. This affects constraint lookup by lower-cased field name (`Constraints.FindFieldConstraint`) and the lower-cased format names.
- Text.ToUpper maps ASCII, Latin-1 and the runes listed at `UpperRune` (`ÿ`, `µ`, long s, dotless i); letters of other scripts keep their case. This affects the upper-cased HTTP method names.
- Variation.NewLen takes the products 0.9n and 1.1n exactly. Go computes them in float64 and truncates, which gives the same integers only for byte lengths n below 2^49; from there on float rounding can move a bound by one, and the model does not capture that.
- Variation.ResizedShape inherits the exact 0.9/1.1 bounds of `Variation.NewLen`, so it matches Go only for byte lengths below 2^49.
- Variation.RandomizedAsciiLength states the length bounds only for ASCII input, because the source measures bytes but edits runes. Its bounds are the exact 0.9/1.1 products of `Variation.NewLen`, which match Go only below 2^49 bytes.
- Text.IsPrintRune treats every rune above U+00A0 as printable except U+00AD and the Unicode spaces, so `Text.Quote` keeps unassigned, format and private-use runes that Go's `strconv.Quote` writes as `\u`/`\U` escapes.
- Variation.VaryInt states the range only when v plus the spread does not overflow the integer kind. Beyond that the sum wraps, which `Values.Wrap` models.
- Variation.VaryIntString states the range only for n >= 0 with n + `TruncHalf(n)` in int64; negative strings above -2 and wrapping sums are covered by the panic statement and `Values.Wrap` alone.
- Constraints.IntegerValueRange states the range only when max − min + 1 fits in int64.
