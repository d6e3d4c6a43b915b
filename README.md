# Bill-field extraction

A model of the field extraction at the heart of a set of Greek utility-bill readers. Each reader takes plain text and fills a dictionary of billing fields by scanning for fixed labels with regular expressions. The text is either the decoded body of a notification email or the text extracted from a PDF bill. The fields are RF payment code, contract number, amount, due date and measurement dates.

- `body-reader.py` holds the EYATH (water) and DEI (electricity) email parsers. Its `main` removes the `>` quoting marks from the decoded body, can print the body on one line for debugging, and chooses a parser from the `--eyath`/`--dei` switches or from the `eyath.gr`/`dei.gr` markers in the text.
- `electricity-reader.py` holds the DEI and Zenith PDF parsers and the RF-code rule they share: the contract number is the last 12 characters of the RF code. Zenith takes the fifth date token as the due date, and the first `€` amount after that date as the amount. It writes `"Not found"` when either is missing.
- `eyath-reader.py` flattens the EYATH PDF text to one line and reads these fields from it:
  - the `*`-delimited RF payment code;
  - the first, second and fourth date tokens;
  - the due date, from the dates written before `ΠΑΓΙΟ ΤΕΛΟΣ` and before `ΠΟΛΗ`;
  - the receipt amount.

  The warnings it prints are returned as values.
- `dei-reader.py` is an older copy of the DEI PDF parser, written inline in its main block. It is modelled as `DeiReader.ReadDeiBill`.

The modules are as follows:
- `Wrappers`: `Option`.
- `Text`: character classes, `str.find`, `str.replace`, `str.strip`, suffixes and `findall` of `DD/MM/YYYY` tokens.
- `Patterns`: one constructor per regular expression. Each has a hand-written matcher for its backtracking. `re.search` is the leftmost start where the matcher succeeds.
- `Bill`: the record as a `map<string, string>`, with its key names.
- One module per reader.

Every parser has two forms:
- a specification function, `...Record(text)`;
- a `method` that fills the dictionary step by step, as the script does, and ensures it equals that function.

The lemmas state the promises about the record: which keys appear, what shape each value has, the precedence rules and the sentinels.

A pattern over the DEI email code, `label\s*([A-Z0-9\s]+)`, behaves differently when the blanks after its label are followed by a character outside `A-Z0-9`. The regular expression then gives back one blank and captures it. The model does the same: `RFcode` and `contractNumber` become empty.

## Model

| member | source | states |
|---|---|---|
| Text.Find | electricity-reader.py:75 | `str.find`: the index of the first occurrence of the word; -1 only when it occurs nowhere |
| Text.FindMissesOnlyAbsent | body-reader.py:109-111 | `find` answers -1 exactly when the `in` test is false, so the marker tests can be read as `marker in content` |
| Text.ReplaceChar | eyath-reader.py:14 | single-character `replace`: same length, every occurrence of the old character replaced, every other character kept |
| Text.ReplaceCharIdempotent | body-reader.py:32 | after replacing commas by dots no comma is left, the length is unchanged, and a second replacement changes nothing |
| Text.Drop | eyath-reader.py:24 | removing a set of characters leaves none of them and never lengthens the text |
| Text.DropSplits | eyath-reader.py:24 | removal works character by character: a single character is kept exactly when it is not removed, and removing from a concatenation is removing from each part, so the kept characters stay in order |
| Text.DropNothing | body-reader.py:96 | removing characters that do not occur returns the text unchanged |
| Text.DropKeepsOnlyItsInput | eyath-reader.py:24 | removing characters adds none: every character left was in the input |
| Text.Strip | eyath-reader.py:24 | `strip()` is the slice that remains after removing the longest blank prefix and the longest blank suffix: no blank at either end, and when the text starts non-blank, a prefix holding every non-blank character |
| Text.StripKeepsOnlyItsInput | eyath-reader.py:24 | `strip()` only keeps characters of its input |
| Text.LastChars | electricity-reader.py:37 | `[-12:]` is the suffix of length 12, or the whole text when it is shorter |
| Text.AllDates | eyath-reader.py:29 | every token `findall` returns has the shape two digits `/` two digits `/` four digits |
| Text.DateStarts | eyath-reader.py:29 | the positions where `findall` matches are date tokens, and any two of them are at least 10 apart in list order, so matches never overlap |
| Text.DateStartsComplete | eyath-reader.py:29 | every position where a date token starts is a match position or lies inside a match |
| Text.DatesFromAt | eyath-reader.py:29 | there is one token per match position, and each is the ten characters found there |
| Text.AllDatesAreFindall | eyath-reader.py:29 | `findall` over the whole text: tokens are the text at non-overlapping, increasing match positions, and no date token is missed except inside an earlier match |
| Text.DatesFromOccur | eyath-reader.py:29 | every token `findall` returns from a position on occurs in the text at or after that position |
| Text.FoundDateIsLocated | electricity-reader.py:75-76 | `find` of a token `findall` returned is never -1 and leaves room for the whole token |
| Patterns.LabelRunAt | body-reader.py:20-30 | a match is the marker, blanks when the pattern allows them, then the longest non-empty run of the class; conversely, whenever the marker is there and such a maximal run follows, that run is the match |
| Patterns.LabelFixedAt | body-reader.py:15 | a match is the marker, blanks, then exactly `width` characters of the class; conversely, whenever the marker is there and such characters follow the blanks, they are the match |
| Patterns.LabelDateAt | body-reader.py:35 | a match is the marker, blanks, then a date token; conversely, whenever the marker is there and a date token follows the blanks, it is the match |
| Patterns.LabelCodeAt | body-reader.py:47 | a match is the marker and the group the backtracking of `\s*([A-Z0-9\s]+)` takes; conversely, that group is always the match when the marker is there |
| Patterns.EuroAt | electricity-reader.py:79-82 | a group of digits, `.` and `,` that blanks and `€` follow is the match at its start, and only such a group is |
| Patterns.LabelEuroAt | electricity-reader.py:44 | a match is the marker, blanks, a `*` and blanks, then a non-empty run of digits, `.` and `,`, then blanks and `€`; conversely, any such labelled amount at the index is the match |
| Patterns.LabelNextLineAt | electricity-reader.py:54-60 | a match is the marker, blanks that include a line break, then the longest run of digits, `.` and `/`; conversely, any such run there is the match |
| Patterns.RfDigitsAt | electricity-reader.py:34 | the pattern matches at an index exactly when `RF` and 20 digits start there; the match takes every digit that follows |
| Patterns.RfDigitsSearch | electricity-reader.py:34 | the reported start has `RF` and 20 digits, no earlier index has them, and nothing is reported only when no index has them |
| Patterns.StarRfAt | eyath-reader.py:22 | a match is a `*`, blanks, then a group of at least three characters that starts with `RF` and holds no `*`, then blanks and a closing `*`; the lazy group ends at the first point from which only blanks lead to a `*` |
| Patterns.StarRfAtComplete | eyath-reader.py:22 | conversely, whenever a `*`-delimited RF group starts at the index the pattern matches there, and a group that ends lazily is exactly the match |
| Patterns.StarRfSearch | eyath-reader.py:22 | the reported group is the lazy `*`-delimited RF group at the reported start, no earlier index has any `*`-delimited RF group, and nothing is reported only when no index has one |
| Patterns.LabelEuroSearch | electricity-reader.py:44 | no labelled euro amount starts before the reported start, and nothing is reported only when the text holds no labelled euro amount |
| Patterns.DateBeforeAt | eyath-reader.py:38-39 | a match is a date token followed, after blanks, by the marker; conversely, any such date token is the match |
| Patterns.ReceiptAmountAt | eyath-reader.py:57 | a match is `ΑΡ`, blanks, `.ΠΑΡΑΣΤΑΤΙΚΟΥ`, blanks, `:`, blanks, then digits with an optional `.` or `,` and one or two digits |
| Patterns.ReceiptAmountAtLongest | eyath-reader.py:57 | conversely, whenever a labelled receipt amount starts at the index the pattern matches there, and greedily: the match is at least as long as any labelled amount there |
| Patterns.ReceiptAmountSearch | eyath-reader.py:57 | no labelled receipt amount starts before the reported start, the reported one is the longest there, and nothing is reported only when the text holds none |
| Patterns.MatchAt | electricity-reader.py:34 | a match at an index starts with the pattern's leading literal, and its group has the shape the expression allows |
| Patterns.SearchFrom | electricity-reader.py:34 | leftmost search: the reported start matches, no earlier start does, and nothing is reported only when no start matches |
| Patterns.Search | electricity-reader.py:34 | `re.search` reports a start inside the text at which the pattern matches with the reported group |
| Patterns.SearchIsLeftmost | electricity-reader.py:34 | no start before the reported one matches; no report means no start matches |
| Patterns.Capture | electricity-reader.py:34-36 | `group(1)`, when present, has the shape its expression allows |
| Patterns.LabelEuroCapture | electricity-reader.py:44-46 | the group of a labelled euro pattern follows its marker (and `*` when present) and is followed by `€` |
| Patterns.StarRfCapture | eyath-reader.py:22-24 | the RF group lies between a `*` and a closing `*`, blanks aside |
| Patterns.ReceiptAmountCapture | eyath-reader.py:57-58 | the receipt group follows `ΑΡ`, `.ΠΑΡΑΣΤΑΤΙΚΟΥ` and `:`, blanks allowed between them |
| Patterns.ReceiptAmountNeedsLabel | eyath-reader.py:57-58 | without `ΑΡ` or without `.ΠΑΡΑΣΤΑΤΙΚΟΥ` in the text the receipt pattern captures nothing |
| Patterns.AnchorMissingMeansNoCapture | body-reader.py:14-37 | without its label in the text, a pattern captures nothing |
| Patterns.MatchNeedsAnchor | body-reader.py:14-37 | a match anywhere implies the label occurs in the text |
| Patterns.FirstOccurrenceWins | body-reader.py:24-27 | when a value follows the first occurrence of the label, that value is the capture; later occurrences are ignored |
| ElectricityReader.RfFieldsLayout | electricity-reader.py:33-38 | the RF dictionary is empty without a code; otherwise exactly `RFcode` and `contractNumber`, the latter the code's last 12 characters |
| ElectricityReader.RfRecord | electricity-reader.py:32-38 | the RF dictionary has only `RFcode` and `contractNumber`, both or neither, present exactly when the RF pattern matches |
| ElectricityReader.ExtractRfCode | electricity-reader.py:32-38 | the method builds the RF dictionary of the first `RF` + 20-or-more-digit match |
| ElectricityReader.ContractDigits | electricity-reader.py:37 | the contract number of a captured RF code is exactly 12 characters, all digits, and a suffix of the code |
| ElectricityReader.RfCodeIsFirstMatch | electricity-reader.py:34-36 | `RFcode` appears exactly when the pattern matches. It is the leftmost match, starts with `RF`, has at least 22 characters, and takes every digit that follows; it starts at the first index holding `RF` and 20 digits, and is missing only when no index holds `RF` and 20 digits |
| ElectricityReader.RfCodeAndContract | electricity-reader.py:35-37 | both keys or neither; `contractNumber` is 12 digits and the suffix of `RFcode` |
| ElectricityReader.DeiRecord | electricity-reader.py:40-63 | the DEI record has no keys but its five |
| ElectricityReader.DeiFillOrder | electricity-reader.py:41-62 | filling in the parser's order, with the RF dictionary merged after the amount, gives the DEI record |
| ElectricityReader.AddAmountToPay | electricity-reader.py:44-46 | the amount step sets `amountToPay` to the capture when there is one and changes nothing else |
| ElectricityReader.AddPaymentDue | electricity-reader.py:54-56 | the due-date step sets `paymentDue` to the capture when there is one and changes nothing else |
| ElectricityReader.AddNextMeasurement | electricity-reader.py:60-62 | the next-reading step sets `nextMeasurement` to the capture when there is one and changes nothing else |
| ElectricityReader.ParseDeiData | electricity-reader.py:40-63 | the step-by-step parser returns the DEI record of the text |
| ElectricityReader.DeiFieldsLayout | electricity-reader.py:40-63 | each key of the DEI record is present exactly when its field was captured and holds the capture; no other keys |
| ElectricityReader.NextLineCapture | electricity-reader.py:54 | a next-line capture is a non-empty run of digits, `.` and `/`, and the blanks after its label contain a line break |
| ElectricityReader.DeiAmountShape | electricity-reader.py:44-46 | `amountToPay` appears exactly when its pattern matches and is the verbatim capture, digits, `.` and `,`, commas kept; in the text it follows `ΠΟΣΟ ΠΛΗΡΩΜΗΣ` and a `*` and is followed by `€` |
| ElectricityReader.DeiAmountFirstMatch | electricity-reader.py:44-46 | `amountToPay` comes from the first labelled euro amount in the text: none starts before it, and the key is missing only when the text holds none |
| ElectricityReader.DeiDueShape | electricity-reader.py:54-56 | `paymentDue` is a non-empty run of digits, `.` and `/`, taken only when the blanks after its label include a line break |
| ElectricityReader.DeiNextShape | electricity-reader.py:60-62 | `nextMeasurement` has the same shape and line-break condition after its own label |
| ElectricityReader.NotSentinel | electricity-reader.py:86 | a non-empty value of digits and punctuation is never `"Not found"` |
| ElectricityReader.DeiOmitsMissing | electricity-reader.py:40-63 | the DEI record has only its five keys, and leaves out every field whose label is missing |
| ElectricityReader.DeiFieldsNeverSentinel | electricity-reader.py:40-63 | a DEI record whose values have their patterns' shapes holds no `"Not found"` |
| ElectricityReader.DeiNeverSentinel | electricity-reader.py:40-63 | `parse_dei_data` never writes `"Not found"` |
| ElectricityReader.ZenithMergeFields | electricity-reader.py:93-95 | merging the RF dictionary keeps `paymentDue` and `amountToPay` and adds only the RF keys |
| ElectricityReader.ZenithRecord | electricity-reader.py:65-97 | the Zenith record always has `paymentDue` and `amountToPay`, holding the due date and the amount found after it |
| ElectricityReader.FirstEuroAmount | electricity-reader.py:79-86 | the first `€` amount is a non-empty run of digits, `.` and `,`, or `"Not found"` |
| ElectricityReader.AmountAfter | electricity-reader.py:75-88 | the amount after the due date is `"Not found"` when `find` fails, and otherwise a non-empty run of digits, `.` and `,`, or `"Not found"` |
| ElectricityReader.AmountAfterNeedsDue | electricity-reader.py:75-88 | when the due date does not occur in the text, the amount is `"Not found"` |
| ElectricityReader.FindAmountAfter | electricity-reader.py:75-88 | the amount search returns the first `€` amount after the due date, or `"Not found"` |
| ElectricityReader.ParseZenithData | electricity-reader.py:65-97 | the step-by-step parser returns the Zenith record of the text |
| ElectricityReader.ZenithTooFewDates | electricity-reader.py:89-91 | with fewer than five date tokens both `paymentDue` and `amountToPay` are `"Not found"` |
| ElectricityReader.ZenithFifthDate | electricity-reader.py:72-88 | with five or more tokens, `paymentDue` is the fifth token. That token always occurs in the text, so the `find == -1` branch never runs. `amountToPay` is the first `€` amount after the token's first occurrence, or `"Not found"` |
| ElectricityReader.ZenithMerge | electricity-reader.py:93-95 | the Zenith record always has `paymentDue` and `amountToPay`, and the RF merge adds only `RFcode` and `contractNumber` |
| EyathReader.OneLiner | eyath-reader.py:14 | the one-liner has no line break, the same length, and differs only where a line break became a tab |
| EyathReader.OneLinerKeepsDates | eyath-reader.py:14-29 | flattening does not change the date tokens `findall` returns |
| EyathReader.DropSpacesKeepsRf | eyath-reader.py:24 | removing spaces from a code starting with `RF` keeps the `RF` in front |
| EyathReader.RfPayment | eyath-reader.py:24 | the cleaned RF code holds no space and is no longer than the captured group |
| EyathReader.StarFree | eyath-reader.py:22-24 | the captured RF group, spaces removed, holds no space and no `*` |
| EyathReader.StripRfCode | eyath-reader.py:24 | stripping a space-free, star-free code that starts with `RF` keeps all three properties and leaves no trailing blank |
| EyathReader.RfPaymentShape | eyath-reader.py:22-24 | `RFpayment` starts with `RF` and holds no space, no `*` and no trailing blank |
| EyathReader.ResolveDue | eyath-reader.py:41-51 | the date before `ΠΑΓΙΟ ΤΕΛΟΣ` wins and the date before `ΠΟΛΗ` is the fallback. There is no date only when neither exists. There is no warning exactly when both exist and agree, and each other case gets its own warning |
| EyathReader.ReceiptAmountConverts | eyath-reader.py:57-64 | every receipt amount the pattern captures becomes, with its comma turned into a dot, a decimal literal `float()` accepts |
| EyathReader.Amount | eyath-reader.py:60-64 | a converted amount is a decimal literal of the captured length, with every comma turned into a dot and every other character kept |
| EyathReader.EyathFieldsLayout | eyath-reader.py:18-62 | each key of the EYATH record is present exactly when its field was found and holds it; no other keys |
| EyathReader.EyathRecord | eyath-reader.py:14-66 | the EYATH record holds no keys but its six own |
| EyathReader.EyathWarnings | eyath-reader.py:41-64 | at most two warnings are printed, and only the conversion warning can follow another |
| EyathReader.AddRfPayment | eyath-reader.py:22-24 | the RF step sets `RFpayment` to the cleaned capture when there is one and changes nothing else |
| EyathReader.AddMeasurementDates | eyath-reader.py:29-34 | the dates step sets the three measurement keys to tokens 0, 1 and 3 when there are at least four |
| EyathReader.AddDuePayment | eyath-reader.py:38-51 | the due-date step sets `duePayment` to the resolved date and reports the resolved warning |
| EyathReader.AddAmount | eyath-reader.py:57-64 | the amount step sets `amount` to the converted capture and reports a warning only when it does not convert |
| EyathReader.ExtractData | eyath-reader.py:14-64 | the step-by-step extraction returns the EYATH record and the warnings, in order |
| EyathReader.EyathRfPayment | eyath-reader.py:20-24 | `RFpayment` appears exactly when the `*`-delimited pattern matches. It is the captured group cleaned of spaces, the group lies between two `*`, and the value starts with `RF` and holds no space or `*`; the group is the lazy one at the first index where a `*`-delimited RF group starts, and the key is missing only when the one-liner holds no such group |
| EyathReader.EyathMeasurements | eyath-reader.py:26-34 | the three measurement dates appear together, exactly when there are at least four tokens. They are tokens 0, 1 and 3 of the original text, all date-shaped |
| EyathReader.EyathDuePayment | eyath-reader.py:36-51 | `duePayment` appears exactly when one of the two anchors matches. It is the `ΠΑΓΙΟ ΤΕΛΟΣ` date when that exists, otherwise the `ΠΟΛΗ` date, and always date-shaped |
| EyathReader.EyathAmount | eyath-reader.py:54-64 | `amount` appears exactly when the receipt pattern matches. It is the capture with a dot for the comma, the capture follows `ΑΡ`, `.ΠΑΡΑΣΤΑΤΙΚΟΥ` and `:`, the value is a decimal literal, and no conversion warning is ever printed |
| EyathReader.EyathAmountFirstMatch | eyath-reader.py:57-58 | the amount comes from the first labelled receipt amount in the one-liner, the longest one there, and is missing only when the one-liner holds no labelled receipt amount |
| EyathReader.AmountStepConverts | eyath-reader.py:57-64 | on any one-liner the amount step keeps every capture and prints nothing |
| EyathReader.EyathWarningCount | eyath-reader.py:41-64 | at most one warning is printed, and none exactly when both due-date anchors match and agree |
| EyathReader.EyathFieldsOmit | eyath-reader.py:18-62 | a field that was not found leaves its key out of the record |
| EyathReader.RfPaymentNeedsStar | eyath-reader.py:22-24 | without a `*` in the one-liner there is no `RFpayment` |
| EyathReader.DuePaymentNeedsLabel | eyath-reader.py:38-51 | with neither `ΠΑΓΙΟ ΤΕΛΟΣ` nor `ΠΟΛΗ` in the one-liner there is no `duePayment` |
| EyathReader.AmountNeedsLabel | eyath-reader.py:57-64 | without `ΑΡ` or without `.ΠΑΡΑΣΤΑΤΙΚΟΥ` in the one-liner there is no `amount` |
| EyathReader.EyathFieldsNeverSentinel | eyath-reader.py:18-62 | a record whose fields have the shapes the steps give holds no `"Not found"` |
| EyathReader.EyathOmitsMissing | eyath-reader.py:18-66 | a field whose anchor (`*`, both due-date labels, `ΑΡ` or `.ΠΑΡΑΣΤΑΤΙΚΟΥ`) is missing from the one-liner is left out |
| EyathReader.EyathNeverSentinel | eyath-reader.py:18-66 | the EYATH record never holds `"Not found"` |
| BodyReader.DecimalPointNormalises | body-reader.py:32 | a normalised amount has no comma, the captured length, and normalising again changes nothing |
| BodyReader.DecimalPointShape | body-reader.py:30-32 | a normalised amount of digits, dots and commas is non-empty and holds digits and dots only |
| BodyReader.EyathEmailLayout | body-reader.py:9-39 | the EYATH email record is tagged water/eyath, and each other key is present exactly when its field was captured |
| BodyReader.EyathEmailRecord | body-reader.py:9-39 | the EYATH email record is tagged `type="water"`, `company="eyath"`, and has only its own keys |
| BodyReader.AddConsumerNumber | body-reader.py:15-17 | the consumer step sets `consumerNumber` to the capture when there is one and changes nothing else |
| BodyReader.AddAccountNumber | body-reader.py:20-22 | the account step sets `accountNumber` to `ΑΚΝ` followed by the capture |
| BodyReader.AddPaymentOrder | body-reader.py:25-27 | the RF step sets `RFcode` to the capture when there is one |
| BodyReader.AddEmailAmount | body-reader.py:30-32 | the amount step sets `amount` to the capture with commas turned into dots |
| BodyReader.AddEmailDue | body-reader.py:35-37 | the due-date step sets `paymentDue` to the capture when there is one |
| BodyReader.ParseEyathEmail | body-reader.py:9-39 | the step-by-step parser returns the EYATH email record |
| BodyReader.EyathEmailTags | body-reader.py:10-12 | whatever the input, the record is tagged `type="water"`, `company="eyath"` and has only its own keys |
| BodyReader.EyathEmailIdentifiers | body-reader.py:14-27 | `consumerNumber` is 15 digits or dashes; `accountNumber` is `ΑΚΝ` and one or more of `A-Z0-9`; `RFcode` is one or more of `A-Z0-9` |
| BodyReader.EyathEmailAmountAndDue | body-reader.py:29-37 | `amount` appears exactly when captured and is the capture with dots for commas, digits and dots only; `paymentDue` is date-shaped |
| BodyReader.EyathEmailOmitsMissing | body-reader.py:14-37 | a field whose label is missing is left out, with no placeholder |
| BodyReader.EyathEmailFirstRfCode | body-reader.py:24-27 | when a code follows the first occurrence of the payment-order label, that code is `RFcode` |
| BodyReader.DeiEmailLayout | body-reader.py:41-63 | the DEI email record is tagged electricity/dei. `RFcode` is the unspaced capture and `contractNumber` its suffix, both present exactly when a code was captured. Amount and due date are present exactly when captured |
| BodyReader.DeiEmailRecord | body-reader.py:41-63 | the DEI email record is tagged `type="electricity"`, `company="dei"`, and has only its own keys |
| BodyReader.AddDeiCode | body-reader.py:47-51 | the RF step sets `RFcode` to the unspaced capture and `contractNumber` to its last 12 characters |
| BodyReader.ParseDeiEmail | body-reader.py:41-63 | the step-by-step parser returns the DEI email record |
| BodyReader.DeiEmailTags | body-reader.py:42-44 | whatever the input, the record is tagged `type="electricity"`, `company="dei"` and has only its own keys |
| BodyReader.UnspacedCode | body-reader.py:47-49 | removing blanks from a captured code leaves only `A-Z0-9` and keeps its first character unless that is a blank |
| BodyReader.DeiEmailCodeFields | body-reader.py:47-51 | for any captured code group, `RFcode` has no blank and only `A-Z0-9`, and `contractNumber` is its suffix of length 12, or all of it when shorter |
| BodyReader.DeiEmailRfCode | body-reader.py:47-51 | `contractNumber` is present exactly when `RFcode` is. `RFcode` has no whitespace, and `contractNumber` is its last 12 characters, or all of it when shorter |
| BodyReader.DeiEmailAmountAndDue | body-reader.py:53-61 | `amount` appears exactly when captured and is the capture with dots for commas; `paymentDue` is date-shaped |
| BodyReader.DeiEmailOmitsMissing | body-reader.py:46-61 | a field whose label is missing is left out, with no placeholder |
| BodyReader.Unquote | body-reader.py:96 | the cleaned body holds no `>` and is no longer than the decoded body |
| BodyReader.UnquoteSplits | body-reader.py:96 | `replace(">", "")` works character by character: `>` is removed, every other character is kept, and order is kept |
| BodyReader.UnquoteIdempotent | body-reader.py:96 | a body without `>` is unchanged, so cleaning twice is cleaning once, and cleaning only removes characters |
| BodyReader.DebugLine | body-reader.py:99 | the debug line has the body's length, no `\n` or `\r`, and a tab exactly where those were |
| BodyReader.Dispatch | body-reader.py:102-114 | the result is the EYATH record, the DEI record or the error dictionary alone |
| BodyReader.DispatchOrder | body-reader.py:103-114 | `--eyath` wins over `--dei`, then `eyath.gr` in the body wins over `dei.gr`, and with neither the result is only the error entry |
| BodyReader.DispatchTagsOrError | body-reader.py:102-114 | the dispatch returns a record tagged with a matching type and company and no error, or the error entry alone |
| BodyReader.Respond | body-reader.py:89-114 | without a body and without `--debug` the result is the missing-part error with exit status 1. With `--debug` it is the debug line of the unquoted body, or of the empty text when there is no body. With a body and no `--debug` it is the dispatch on the unquoted body with status 0 |
| BodyReader.RespondUsesUnquotedBody | body-reader.py:94-114 | the debug line is computed from the body with its `>` marks removed: it has the unquoted length and holds no line break and no `>` |
| DeiReader.AddRfCode | dei-reader.py:54-56 | the RF step sets `RFcode` to the first `RF` + 20-or-more-digit match and adds no contract number |
| DeiReader.OldDeiRecord | dei-reader.py:43-68 | the old DEI record has only `amountToPay`, `RFcode`, `paymentDue` and `nextMeasurement`, never `contractNumber` |
| DeiReader.ReadDeiBill | dei-reader.py:43-68 | the inline extraction, as a method, returns the old DEI record |
| DeiReader.OldDeiFieldsLayout | dei-reader.py:43-68 | the keys are among `amountToPay`, `RFcode`, `paymentDue`, `nextMeasurement`, each present exactly when captured |
| DeiReader.OldDeiOrderIrrelevant | dei-reader.py:45-68 | running the four checks in the opposite order fills the same dictionary |
| DeiReader.OldDeiFieldsAreDeiFields | dei-reader.py:43-68 | from the same captures, the old record is the newer DEI record without `contractNumber` |
| DeiReader.OldDeiIsDeiWithoutContract | dei-reader.py:43-68 | for every text, the old record equals `parse_dei_data`'s record with `contractNumber` removed |
| DeiReader.OldDeiRfCode | dei-reader.py:54-56 | the old record never has `contractNumber`; `RFcode` appears exactly when the RF pattern matches and has its shape; it starts at the first index holding `RF` and 20 digits, and is missing only when no index holds them |

## Left out

- PDF text extraction with pypdf and the page loop that joins page texts. The text the library would return is the model's input string.
- MIME walking and base64 and UTF-8 decoding of the email. `BodyReader.Respond` takes the decoded body as an `Option`: `None` when no base64 `text/plain` part exists. A body that fails to decode is not modelled.
- The command line. argparse becomes the `Flags` value; reading the file or standard input is left out.
- Output. `json.dumps` formatting, printing, and standard error become values: the record, the `Output` datatype and the EYATH `Warning` list. `sys.exit` becomes a status number.
- The debug branch is modelled, but its exit status 0 is not recorded.
- `float()` at eyath-reader.py:62 is modelled as a check that the normalised text is a decimal literal. `amount` keeps that text, not a floating-point number.
- `\d` is modelled as the ASCII digits; Python also accepts other Unicode digits. `\s` is modelled as Python's whitespace set, listed explicitly.
- Each regular expression has its own matcher. There is no general regex engine, and the matchers are not proved against one.
- Patterns.MatchAt: its contract states only where a match starts and what shape its group has. Which texts match is stated, in both directions, by the contracts of the per-expression matchers.
- Patterns.StarRfAt: its own contract states only what a match looks like. That every `*`-delimited RF group at the index gives a match, and that the lazy one is the match, is stated by `Patterns.StarRfAtComplete`.
- Patterns.ReceiptAmountAt: its own contract states only what a match looks like. That every labelled receipt amount at the index gives a match, and that the match is the longest, is stated by `Patterns.ReceiptAmountAtLongest`.
- Patterns.Search: its contract states only that the reported start matches. Leftmost-ness is stated by `Patterns.SearchIsLeftmost`.
- `auto-dei.py` (browser automation and file moving) is not part of this model.
- eyath-reader.py has no due-date rule based on date positions and no reading of a PDF from an email attachment, so neither is modelled. The DEI PDF amount keeps its comma (electricity-reader.py:46, dei-reader.py:49).
- Text.Drop: its own contract states only that no removed character is left and that the text does not grow. The full character-by-character rule is stated by `Text.DropSplits`.
- BodyReader.Unquote: its own contract states only that no `>` is left and that the body does not grow. The full rule is stated by `BodyReader.UnquoteSplits`.
- Text.AllDates: its own contract states only the shape of each token. Positions, order, non-overlap and completeness are stated by `Text.AllDatesAreFindall`.
