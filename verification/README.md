# google-sheets-uploader, modelled in Dafny

This project models the data-normalisation layer and the upload
orchestration of google-sheets-uploader, a library that turns delimited
text, JSON records or 2-D arrays into rows and writes them to a Google
Sheets spreadsheet. Each Dafny module follows one source file:

- `Range` (src/utils/range.ts): A1 addressing. Column numbers become
  bijective base-26 letters, cell references are parsed back, and range
  strings of the form `Sheet!A1:E10` are built.
- `Csv` (src/parsers/csv.ts): the quoted/unquoted character machine of
  `parseCSVString` and the per-field coercion `coerceValue`.
- `Json` (src/parsers/json.ts): `flattenObject`, `toCellValue`, and
  `parseJSON` with its header reconciliation.
- `Resolver` (src/parsers/index.ts): the `resolveData` dispatch on input
  shape and file extension.
- `Retry` (src/utils/retry.ts): `isRetryable` and the `withRetry` attempt
  loop with exponential backoff.
- `Clear` (src/operations/clear.ts): `clearSheet`.
- `Upload` (src/operations/upload.ts): `uploadData` with its progress
  events, serialisation, padding and chunked writes.
- `Batch` (src/operations/batch.ts): `batchUpload`.
- `Validation` (src/utils/validation.ts): the four input validators.

Three modules support the others:

- `Types` holds the shared values and errors: a JavaScript value, a cell,
  and the library's error kinds.
- `Text` holds string helpers: ASCII case mapping, `trim`, `split`, and
  decimal rendering.
- `Sheets` stands in for the remote spreadsheet service. It is a
  `Service` class that appends every request (metadata read, clear,
  update, append) to its `log`. Which requests fail is fixed up front,
  by each request's position in the log.

The imperative parts of the source keep their form:

- The loops of `columnToLetter`, `parseCell`, `parseCSVString`, the
  `parseJSON` header and row loops, `flattenObject`, `withRetry`, the
  padding loop, both chunk loops, `clearSheet`, `uploadData` and
  `batchUpload` are methods.
- Each method is proved equal to a specification function. What the
  source promises is proved about that function in lemmas.
- The operations that talk to the service are methods on a `Service`
  whose `log` they extend. They return the progress events the callback
  would receive.

Thrown errors are `Err` or `Some(error)` results.

## Model

The table lists the members that carry a contract. The source functions
themselves are defined by the members named below. Those definitions have
no contract of their own, and the table rows named after "meaning" state
what they compute.

- `columnToLetter` (src/utils/range.ts:5-14): `Range.ColumnLetters`. The method `Range.ColumnToLetter` runs the loop. Meaning: ColumnLetters, ColumnLettersRoundTrip, ColumnLettersInjective, ColumnLettersOnto.
- `buildRange` (src/utils/range.ts:20-31): `Range.BuildRange`, with `Range.SheetPrefix` and `Range.CellAddress`. `Range.ReadRange` reads a range back. Meaning: BuildRangeReadsBack, AddressHasNoSeparators.
- `parseCell` (src/utils/range.ts:37-52): `Range.CellOf`. The method `Range.ParseCell` runs the loop. Meaning: CellOf, CellAddressRoundTrip, CellOfIgnoresCase.
- `parseCSVString` (src/parsers/csv.ts:8-65): `Csv.Parse`. It is `Csv.Scan`, which runs `Csv.Step` (with `Csv.EndRow`) from `Csv.Start`, then `Csv.Finish`. `Csv.Fields`, `Csv.Cells` and `Csv.CellsGrid` coerce the field texts. The method `Csv.ParseCsvString` is proved equal to it. `Csv.Encode` and `Csv.SplitReading` are independent references used by the lemmas. Meaning: EncodeParseRoundTrip, ParseMatchesSplitting, LineFieldCount, TrailingNewlineAddsNoRow, CrLfEndsRowsLikeLf.
- `coerceValue` (src/parsers/csv.ts:67-80): `Csv.Coerce`, with `Csv.IsNumericLiteral` in place of `Number()`. Meaning: CoerceDependsOnTrimmed, CoerceIsCell, CoerceBoolean, CoerceNotBlankNorBoolean.
- `parseCSV` (src/parsers/csv.ts:82-98): `Resolver.ParseCsvFile`. Meaning: Resolver.ParseCsvFileOutcomes.
- `flattenObject` (src/parsers/json.ts:8-22): `Json.Flatten`. It is `Json.FlattenInto`, built from `Json.Assign` and `Json.AssignAll`. The method `Json.FlattenObject` runs the loop, and `Json.Leaves` is the independent reference. Meaning: FlattenMeaning, FlattenShape.
- `toCellValue` (src/parsers/json.ts:24-33): `Json.ToCell`, with `Json.JsonText` in place of `JSON.stringify`. Meaning: ToCell, ArrayCellExample.
- `parseJSON` (src/parsers/json.ts:35-76): `Json.JsonGrid`, with `Json.Flattened`, `Json.AllKeys` and `Json.FirstOccurrences`. The method `Json.ParseJson` is proved equal to it. Meaning: JsonGridRows, JsonGridErrors, FirstOccurrencesSpec.
- `resolveData` (src/parsers/index.ts:11-45): `Resolver.ResolveData`, with `Resolver.RouteOf`, `Resolver.Extension` and `Resolver.PassedRows`. Meaning: ResolvePassThrough, ResolveRecords, RouteOnlyInspectsFirst, ResolveRejectsOtherShapes, ResolvePath, ExtensionAfterLastDot.
- `isRetryable` (src/utils/retry.ts:14-25): `Retry.IsRetryable`, with `Retry.StatusOf`, `Retry.HasRetryableStatus` and `Retry.MentionsTransientFailure`. Meaning: TransientMessageIsRetryable, CodeHidesStatus, StatusDecidesWithoutCode, LibraryErrorsNeedTransientMessage.
- `withRetry` (src/utils/retry.ts:27-51): the method `Retry.WithRetry`. It is specified by `Retry.Stop`, the attempt that ends the loop, and by `Retry.WaitTime`, one sleep. Meaning: WithRetry, StopSpec, Waits, WaitTimeBounds.
- `emitProgress` (src/operations/upload.ts:10-23): `Upload.Emit`, with `Upload.Percent`. Meaning: PercentBounds, PercentMonotone, PercentEnds, SteadyPercents.
- `serializeValues` (src/operations/upload.ts:25-33): `Upload.Serialize`. Meaning: SerializeSpec.
- `uploadData` (src/operations/upload.ts:35-116): `Upload.UploadRun`. It runs in two phases, `Upload.Prepare` and `Upload.Transfer`, and `Upload.WriteRun` is the chunk loop. The methods `Upload.UploadData`, `Upload.TransferRows` and `Upload.WriteChunks` are proved equal to them. Meaning: UploadEventsOnSuccess, ReplaceClearsThenWrites, WriteRunRequests, WriteRunOutcome, WriteFailureIsWrapped.
- `clearSheet` (src/operations/clear.ts:4-43): `Clear.ClearTrace`, with `Clear.TargetId`. The method `Clear.ClearSheet` is proved equal to it. Meaning: ClearRequests, ClearFailures, NotFoundWithoutTitle, NotFoundWithoutId.
- `batchUpload` (src/operations/batch.ts:7-28): `Batch.BatchRun`. It is `Batch.BatchFrom`, with `Batch.OptionsFor` and `Batch.UploadStep`. The method `Batch.BatchUpload` is proved equal to it. Meaning: BatchFromOutcome, BatchOutcome.
- `validateConfig` (src/utils/validation.ts:4-20): `Validation.ConfigChecks`, run in order by `Validation.FirstFailing`, with `Validation.Truthy` for JavaScript truthiness. Meaning: ConfigAccepted.
- `validateUploadOptions` (src/utils/validation.ts:22-40): `Validation.UploadOptionsChecks`. Meaning: ValidateUploadOptions, SheetCheckedFirst, DataCheckedBeforeMode.
- `validateReadOptions` (src/utils/validation.ts:42-49): `Validation.ValidateReadOptions`. Meaning: ValidateReadOptions.
- `validateBatchOperations` (src/utils/validation.ts:51-63): `Validation.OperationValid` and `Validation.OperationError`, searched by `Validation.FirstInvalidFrom`. Meaning: ValidateBatchOperations, FirstBadIndexReported.

| member | source | states |
|---|---|---|
| Range.ColumnLetters | src/utils/range.ts:5-14 | A column of at least 1 has at least one letter, a column below 1 has none, and every letter is between A and Z |
| Range.ColumnToLetter | src/utils/range.ts:5-14 | The decrement-then-divide loop produces exactly the bijective base-26 letters of the column |
| Range.ColumnLettersRoundTrip | src/utils/range.ts:5-14 | Folding a column's letters back into a number, as parseCell does, gives the column |
| Range.ColumnLettersInjective | src/utils/range.ts:5-14 | Distinct columns never share letters |
| Range.ColumnLettersOnto | src/utils/range.ts:46-49 | Every non-empty run of upper-case letters is the name of the column its fold computes, so the encoding is a bijection onto such runs |
| Range.ColumnLetterExamples | src/utils/range.ts:1-14 | 1→A, 26→Z, 27→AA, 28→AB, 52→AZ, 702→ZZ, 703→AAA, and 0 or a negative column gives the empty string |
| Range.CellOf | src/utils/range.ts:37-52 | A reference is accepted exactly when it is ASCII letters followed by decimal digits; otherwise the error is "Invalid cell reference" quoting it |
| Range.ParseCell | src/utils/range.ts:37-52 | The matching, upper-casing and column-accumulating loop returns exactly the result CellOf describes |
| Range.CellAddressPattern | src/utils/range.ts:38 | The acceptance test is the regular expression: some split into a non-empty letter run and a non-empty digit run |
| Range.CellAddressRoundTrip | src/utils/range.ts:28-52 | Parsing the address written for (row, column), column ≥ 1, gives that row and column back |
| Range.CellOfIgnoresCase | src/utils/range.ts:38-43 | A reference and its upper-case form are accepted together and name the same cell |
| Range.CellOfExamples | src/utils/range.ts:33-52 | A1 is (1, 1) and B3 is (3, 2) |
| Range.CellOfLastLetterExample | src/utils/range.ts:37-52 | Z100 is row 100, column 26 |
| Range.CellOfMultiLetterExamples | src/utils/range.ts:46-49 | AA1 is column 27 and AB5 is row 5, column 28 |
| Range.CellOfCaseAndRejections | src/utils/range.ts:38-41 | "a1" is (1, 1); "123", "" and "A" are refused |
| Range.BuildRangeReadsBack | src/utils/range.ts:20-31 | Splitting a built range at its last '!' gives the sheet name, single-quoted exactly when it contains a space, and its two halves around ':' parse to the start and end cells |
| Range.AddressHasNoSeparators | src/utils/range.ts:28-29 | A cell address contains neither '!' nor ':' |
| Range.BuildRangeExample | src/utils/range.ts:20-31 | ("Sheet1", 1, 1, 10, 5) gives "Sheet1!A1:E10" |
| Range.QuotedRangeExample | src/utils/range.ts:27 | A name with a space is quoted: "'My Sheet'!A1:C5" |
| Range.ColumnThirtyExample | src/utils/range.ts:5-14 | Column 30 is AD |
| Range.WideRangeExample | src/utils/range.ts:28-30 | ("Data", 1, 1, 100, 30) gives "Data!A1:AD100" |
| Csv.TrimIdempotent | src/parsers/csv.ts:68 | Trimming a trimmed text changes nothing |
| Csv.CoerceDependsOnTrimmed | src/parsers/csv.ts:67-80 | Only the trimmed text decides between null, boolean, number and text; the text case returns the field untrimmed and non-blank |
| Csv.CoerceIsCell | src/parsers/csv.ts:67-80 | Coercion always yields a cell value, never an array or object |
| Csv.CoerceBlankExample | src/parsers/csv.ts:68-69 | An empty or all-whitespace field is null |
| Csv.CoerceBoolean | src/parsers/csv.ts:72-73 | A field whose trimmed text is "true" or "false" in any case is that boolean |
| Csv.CoerceNotBlankNorBoolean | src/parsers/csv.ts:75-79 | Any other non-blank field is a number when its trimmed text is a numeric literal, and otherwise the original untrimmed text |
| Csv.CoerceTrueExample | src/parsers/csv.ts:72 | "TRUE" is true |
| Csv.CoerceFalseExample | src/parsers/csv.ts:73 | " False " is false |
| Csv.CoerceIntegerExample | src/parsers/csv.ts:76-77 | " 42 " is the number 42 |
| Csv.CoerceExponentExample | src/parsers/csv.ts:76-77 | "-1.5e3" is a number |
| Csv.CoerceHexExample | src/parsers/csv.ts:76-77 | "0x1F" is a number |
| Csv.CoerceSignedHexExample | src/parsers/csv.ts:76-79 | "-0x1" is not numeric and stays text |
| Csv.CoerceTextExample | src/parsers/csv.ts:79 | " hello " is returned as " hello ", untrimmed |
| Csv.Step | src/parsers/csv.ts:15-56 | Every iteration consumes one or two characters and never more than remain, so the loop ends |
| Csv.PushCell | src/parsers/csv.ts:36 | Pushing a field appends its coerced value to the row being built |
| Csv.ParseCsvString | src/parsers/csv.ts:8-65 | The loop with its final flush returns exactly the coerced rows of the character machine |
| Csv.ScanEscaped | src/parsers/csv.ts:18-30 | Inside quotes, a text with its quotes doubled followed by a closing quote adds exactly that text to the field and leaves quoted mode |
| Csv.ScanQuoted | src/parsers/csv.ts:18-34 | A quoted field written outside quotes adds its text to the pending field |
| Csv.ScanEncodedRow | src/parsers/csv.ts:8-65 | A row of quoted fields joined by commas and ended by a newline becomes exactly that row |
| Csv.ScanEncoded | src/parsers/csv.ts:8-65 | An encoded table appends exactly its rows to those already finished |
| Csv.EncodeParseRoundTrip | src/parsers/csv.ts:8-65 | Writing every field RFC 4180-quoted and every row newline-terminated, then parsing, gives back every field text in place, commas, quotes and newlines included |
| Csv.DoubledQuoteExample | src/parsers/csv.ts:19-22 | `"a""b"` is the single field `a"b` |
| Csv.ScanLines | src/parsers/csv.ts:31-62 | Without quotes and carriage returns, scanning appends the line-and-comma split of the input to the rows already finished |
| Csv.ParseMatchesSplitting | src/parsers/csv.ts:8-65 | Without quotes and carriage returns the parser is plain splitting: one row per line, one field per comma-separated piece |
| Csv.LineFieldCount | src/parsers/csv.ts:35-50 | A quote-free line has one field more than it has commas, so a blank line is one null cell |
| Csv.TrailingNewlineAddsNoRow | src/parsers/csv.ts:58-62 | The empty input has no rows, and a trailing newline adds no row |
| Csv.QuotedCommaExample | src/parsers/csv.ts:18-38 | `a,"b,c"\nd,e` gives [["a","b,c"],["d","e"]] |
| Csv.CrLfEndsRowsLikeLf | src/parsers/csv.ts:39-50 | Writing every line end of a quote-free text as "\r\n" gives the same rows as "\n" |
| Csv.LoneCarriageReturnIsText | src/parsers/csv.ts:39-54 | Outside quotes, a "\r" not followed by "\n" is field text |
| Csv.QuotedSeparatorsAreText | src/parsers/csv.ts:27-30 | Inside quotes, every character but '"' is field text, commas and newlines included |
| Resolver.ParseCsvFileOutcomes | src/parsers/csv.ts:82-98 | A missing file is a ParseError naming the path; a read file is the parsed text; a failed read is a ParseError |
| Json.AssignSpec | src/parsers/json.ts:15-17 | Assigning a key updates it in place when present and appends it otherwise; its lookup becomes the new value and every other key keeps its value |
| Json.AssignAppends | src/parsers/json.ts:17 | Assigning a key the record lacks appends that field |
| Json.FlattenObject | src/parsers/json.ts:8-22 | The loop, with its recursive calls and merges, returns exactly the flattened record |
| Json.FlattenIntoDistinct | src/parsers/json.ts:8-22 | Every flattened path appears once |
| Json.FlattenIntoLeaves | src/parsers/json.ts:14-18 | No flattened value is a nested object |
| Json.FlattenShape | src/parsers/json.ts:8-22 | A flattened record has distinct paths and only leaf values |
| Json.EmptyObjectContributesNothing | src/parsers/json.ts:14-15 | An empty nested object adds no path |
| Json.FlattenNestedExample | src/parsers/json.ts:8-22 | {user: {name, address: {city}}} flattens to user.name and user.address.city |
| Json.FlattenFlatRecord | src/parsers/json.ts:11-18 | A record with distinct keys and no nested objects flattens to itself |
| Json.Leaves | src/parsers/json.ts:11-18 | The reference for flattening, by structural recursion: a nested object is replaced by its own leaves under its full path, any other value is one leaf under its full path, so no leaf is an object |
| Json.LastValuePresent | src/parsers/json.ts:17 | A path has a last value exactly when some field carries it |
| Json.LastValueIsLast | src/parsers/json.ts:17 | The last value comes from a field with that path after which no field has it |
| Json.LastValueOfDistinct | src/parsers/json.ts:15 | In a record whose keys are distinct, a key's last value is its lookup |
| Json.LastValueAppend | src/parsers/json.ts:11-19 | Of two runs of assignments, the later run's value for a path wins when it has one |
| Json.AssignKeysStep | src/parsers/json.ts:17 | One assignment turns the keys into the first occurrences of the keys assigned so far plus the new key |
| Json.AssignAllKeys | src/parsers/json.ts:15 | Object.assign keeps the target's keys in place and adds the source's new keys in first-seen order |
| Json.AssignAllLookup | src/parsers/json.ts:15 | After Object.assign a key of the source holds its last value there, and every other key keeps the target's value |
| Json.FirstOccurrencesAbsorb | src/parsers/json.ts:15 | Merging an already de-duplicated run of keys gives the same keys as merging the run itself |
| Json.MergeKeysStep | src/parsers/json.ts:15 | Merging a flattened nested object appends its new paths, in first-seen order, after the keys so far |
| Json.FlattenIntoKeys | src/parsers/json.ts:11-19 | The loop's keys are the keys it starts from followed by the new leaf paths, in first-seen order |
| Json.FlattenIntoLookup | src/parsers/json.ts:11-19 | After the loop each leaf path holds the value of its last leaf, and every other key keeps its starting value |
| Json.FlattenMeaning | src/parsers/json.ts:8-22 | For every object and prefix, the flattened keys are the leaf paths, each once, in first-seen order, and each path holds the value of its last leaf |
| Json.FreshLeafStep | src/parsers/json.ts:17 | A top-level leaf whose key is new is appended unchanged |
| Json.ToCell | src/parsers/json.ts:24-33 | The result is always a cell: null and undefined become null, cells are unchanged, and arrays and objects become their JSON text |
| Json.ArrayCellExample | src/parsers/json.ts:30 | ['a','b'] becomes the text ["a","b"] |
| Json.FirstOccurrencesSnoc | src/parsers/json.ts:56-61 | Adding a path keeps the headers so far and appends it exactly when it is new |
| Json.FirstOccurrencesMembers | src/parsers/json.ts:56-62 | Each header appears once, and the headers are exactly the paths that occur |
| Json.FirstOccurrencesOrder | src/parsers/json.ts:56-62 | Headers come in the order of their first occurrence |
| Json.FirstOccurrencesSpec | src/parsers/json.ts:56-62 | The headers are the distinct paths, each once, in first-seen order |
| Json.HeaderStep | src/parsers/json.ts:59 | Adding one key to the insertion-ordered set appends it exactly when it is not yet a header |
| Json.RepeatedPathOnce | src/parsers/json.ts:56-62 | A path seen again is not repeated: a, b, a, c give the headers a, b, c |
| Json.HeaderRow | src/parsers/json.ts:66-68 | The header row holds one text cell per header, in order |
| Json.RowFor | src/parsers/json.ts:71 | A record's row has one cell per header |
| Json.DataRows | src/parsers/json.ts:70-73 | One row per record, each that record's row |
| Json.CollectHeaders | src/parsers/json.ts:55-62 | The nested key loops produce the distinct paths of all records in first-seen order |
| Json.AddKeys | src/parsers/json.ts:58-60 | The inner loop over one record's keys extends the headers of the keys seen so far to those of the keys seen plus this record's |
| Json.FlattenItems | src/parsers/json.ts:48-53 | Every item is checked and flattened in order; the check fails exactly when some item is not an object |
| Json.BuildRows | src/parsers/json.ts:70-73 | The row loop appends one row per record after the rows already there |
| Json.ParseJson | src/parsers/json.ts:35-76 | The method returns exactly what parseJSON returns or throws, with the key order and inherited names noted under Left out |
| Json.JsonGridRows | src/parsers/json.ts:64-75 | A successful parse gives the header row first when asked and then one row per record; each row has one cell per header, in header order, null where the record lacks the path |
| Json.JsonGridErrors | src/parsers/json.ts:39-53 | Parsing fails exactly for a non-array, or a non-empty array with a non-object item, with the matching ParseError; the empty array gives [[]] with headers and [] without |
| Json.MissingKeysExample | src/parsers/json.ts:55-75 | [{a:1,b:2},{a:3,c:4}] gives [["a","b","c"],[1,2,null],[3,null,4]] |
| Json.RejectionExamples | src/parsers/json.ts:39-53 | A string and an array of numbers are rejected |
| Resolver.ResolvePassThrough | src/parsers/index.ts:15-18 | An empty array, or one whose first item is an array, is returned row for row; it fails exactly when a later item is not an array |
| Resolver.ResolveRecords | src/parsers/index.ts:20-23 | A non-empty array whose first item is an object, date or null goes to the record parser with the caller's includeHeaders |
| Resolver.RouteOnlyInspectsFirst | src/parsers/index.ts:16-21 | Two arrays with the same first item take the same route |
| Resolver.ResolveRejectsOtherShapes | src/parsers/index.ts:42-44 | An array whose first item is a primitive or undefined, and anything that is neither an array nor a string, is the invalid-data ValidationError |
| Resolver.ExtensionAfterLastDot | src/parsers/index.ts:27 | The extension is the lower-cased text after the last dot |
| Resolver.ExtensionWithoutDot | src/parsers/index.ts:27 | A path without a dot is its own lower-cased extension |
| Resolver.ResolvePath | src/parsers/index.ts:26-40 | xlsx and xls go to the workbook parser, csv to the CSV file parser, and any other extension is a ValidationError naming it |
| Resolver.ExtensionExamples | src/parsers/index.ts:27 | "Data.CSV" has extension csv, "book.v2.xlsx" xlsx, and "notes" notes |
| Retry.Waits | src/utils/retry.ts:44-45 | There is one sleep per failed attempt that is followed by another attempt |
| Retry.StopSpec | src/utils/retry.ts:34-48 | The loop ends at exactly one attempt: every earlier one failed retryably, and this one succeeds, is the last allowed, or is not retryable |
| Retry.WithRetry | src/utils/retry.ts:27-51 | The loop calls the operation up to and including the stopping attempt, returns or rethrows that attempt's outcome unchanged, and sleeps delay × multiplier^k × jitter after each earlier attempt k, the multiplier defaulting to 2 |
| Retry.SucceedsAt | src/utils/retry.ts:34-36 | An operation that first succeeds at attempt k ≤ retries after retryable failures stops there, after k + 1 calls |
| Retry.NonRetryableStops | src/utils/retry.ts:40-42 | A non-retryable failure stops the loop at once, with no further call or sleep |
| Retry.ExhaustsRetries | src/utils/retry.ts:34-42 | When every attempt fails retryably, the operation runs retries + 1 times and the last error is rethrown |
| Retry.NoRetries | src/utils/retry.ts:34-42 | With no retries the operation runs once and nothing sleeps |
| Retry.WaitTimeBounds | src/utils/retry.ts:44-45 | The jitter lies in [0.85, 1.15), so each sleep lies between 0.85 and 1.15 times delay × multiplier^k |
| Retry.DefaultBackoffDoubles | src/utils/retry.ts:31-45 | With the default multiplier each sleep is twice the previous one for the same draw |
| Retry.IsRetryableExamples | src/utils/retry.ts:12-25 | A rate-limit error and status 503 are retryable; a present code hides the status; a textual code, status 404 and a validation error are not retryable |
| Retry.SocketHangUpExample | src/utils/retry.ts:22 | A message "Socket Hang Up" is retryable: the network-failure match ignores case |
| Retry.TransientMessageIsRetryable | src/utils/retry.ts:21-22 | Any error whose message contains ECONNRESET, ETIMEDOUT, ENOTFOUND or "socket hang up" anywhere, in any case, is retryable |
| Retry.CodeHidesStatus | src/utils/retry.ts:17-19 | Once an error has a code, its status does not affect whether it is retryable |
| Retry.StatusDecidesWithoutCode | src/utils/retry.ts:17-19 | A service error with no code and no network failure in its message is retryable exactly when its status is 408, 429, 500, 502, 503 or 504 |
| Retry.LibraryErrorsNeedTransientMessage | src/utils/retry.ts:15-24 | An error that is neither a RateLimitError nor a service error is retryable exactly when its message names a network failure |
| Clear.FindSheet | src/operations/clear.ts:11-13 | The found sheet exists exactly when some sheet has that title, and it is the first such sheet |
| Clear.ClearFailure | src/operations/clear.ts:36-42 | SheetNotFoundError passes unchanged; any other failure becomes an UploaderError naming the sheet, with the original as cause when it is an Error |
| Clear.ClearSheet | src/operations/clear.ts:4-43 | The service log gains the metadata read and, when the sheet is found, the clear; the outcome is the one the clear trace describes |
| Clear.ClearRequests | src/operations/clear.ts:10-35 | After a successful metadata read, a sheet with an id is cleared with exactly one request for that id, which alone decides success; otherwise no clear is sent and the failure is SheetNotFoundError |
| Clear.NotFoundWithoutTitle | src/operations/clear.ts:11-17 | When no sheet has the title, there is no sheet to clear |
| Clear.NotFoundWithoutId | src/operations/clear.ts:11-17 | When the first sheet with the title has no id, the sheet is reported as not found, even if a later sheet with that title has one |
| Clear.SheetIdZeroIsFound | src/operations/clear.ts:15-17 | Sheet id 0 counts as found, and the first of two sheets with the same title is the one cleared |
| Clear.ClearFailures | src/operations/clear.ts:36-42 | Every failure of a clear is a SheetNotFoundError or an UploaderError naming the sheet |
| Upload.PercentBounds | src/operations/upload.ts:19 | The percentage is the nearest whole number to 100 × processed / total, halves rounded up, and lies within 0..100 |
| Upload.PercentMonotone | src/operations/upload.ts:19 | More processed rows never lower the percentage |
| Upload.PercentEnds | src/operations/upload.ts:19 | No rows processed is 0% and all rows 100% |
| Upload.SerializeSpec | src/operations/upload.ts:25-33 | Serialising keeps every row and column, turns dates into their ISO text and undefined into null, and leaves every other cell alone |
| Upload.MaxWidth | src/operations/upload.ts:86 | The width bounds every row and, when there is a row, is the length of one of them |
| Upload.PadSpec | src/operations/upload.ts:90-93 | Padding keeps the row as a prefix, adds only nulls, and reaches the width unless the row was already longer |
| Upload.PadRow | src/operations/upload.ts:91 | The push loop returns exactly the padded row |
| Upload.PadRows | src/operations/upload.ts:90-93 | Every row is padded, in order |
| Upload.PadAllToWidest | src/operations/upload.ts:86-93 | Padded to the widest row, every row has exactly that width, starts with its own cells and ends with nulls |
| Upload.WriteChunks | src/operations/upload.ts:71-106 | The chunk loop's requests, events and failure are exactly those of the chunk trace |
| Upload.WriteRows | src/operations/upload.ts:71-107 | Append mode sends the serialised rows to the start cell; any other mode pads them and writes each chunk to its own range |
| Upload.TransferRows | src/operations/upload.ts:68-115 | The try block reports 'uploading' at 0, runs the chunk loop, then reports 'complete' or rethrows the failure wrapped |
| Upload.UploadData | src/operations/upload.ts:35-116 | The service log, the outcome and the events the callback receives, none without a callback, are exactly those of the upload trace |
| Upload.ChunksCover | src/operations/upload.ts:73-74 | The first m chunks joined in order are the corresponding prefix of the rows, and each chunk holds between 1 and 10,000 rows |
| Upload.AllChunksAreTheRows | src/operations/upload.ts:73-74 | All ceil(n / 10,000) chunks joined in order are exactly the rows |
| Upload.ChunkSizesExample | src/operations/upload.ts:8 | 25,000 rows go out as chunks of 10,000, 10,000 and 5,000 |
| Upload.WriteRunRequests | src/operations/upload.ts:73-82 | The loop only appends to the log, and the k-th request it sends carries the k-th chunk at its own row offset |
| Upload.WriteRunOutcome | src/operations/upload.ts:71-107 | Every request before the last succeeded; the loop fails exactly when its last request failed, with that error, and otherwise sent one request per chunk |
| Upload.WriteRunEvents | src/operations/upload.ts:82 | After each successful chunk the loop reports min(i + 10,000, total) processed rows; a failed request reports nothing |
| Upload.UploadWithoutRows | src/operations/upload.ts:50-56 | A failed resolution is rethrown after 'parsing'; an empty grid reports 'parsing' and 'complete' at 100%; neither sends a request |
| Upload.TransferRequests | src/operations/upload.ts:68-107 | The writing phase sends chunk k of the payload as its k-th request, at most one request per chunk, after the requests already sent |
| Upload.ReplaceClearsThenWrites | src/operations/upload.ts:62-106 | Replace mode reads the metadata and clears the sheet before any write, then writes chunk k of the padded rows to rows 10,000·k + 1 onwards, columns 1 to the widest row |
| Upload.ReplaceWrites | src/operations/upload.ts:62-106 | Once the clear went through, the metadata read and the clear are followed by the chunk writes |
| Upload.AppendOnlyAppends | src/operations/upload.ts:71-83 | Append mode never reads metadata or clears: every request appends chunk k of the serialised rows at the unquoted sheet!startCell, A1 by default |
| Upload.WriteFailureIsWrapped | src/operations/upload.ts:110-115 | A failed write is rethrown as an UploaderError naming the sheet, with the service's error as cause when it is an Error |
| Upload.ClearFailureStopsUpload | src/operations/upload.ts:62-65 | A failed clear is rethrown as the clear raised it, after 'parsing' and 'clearing', and nothing is written |
| Upload.WritingEvents | src/operations/upload.ts:68-109 | A successful writing phase reports 'uploading' at 0, one 'uploading' per chunk ending at every row, then 'complete', with non-decreasing progress |
| Upload.UploadEventsOnSuccess | src/operations/upload.ts:35-116 | A successful upload reports 'parsing' (with no rows counted yet, so at 100%), then 'clearing' in replace mode only, then 'uploading' at 0, one per chunk, and 'complete'. After 'parsing', processed rows and percentage never decrease and stay within the total and 0..100 |
| Upload.PhasesOnSuccess | src/operations/upload.ts:50-109 | The same event sequence, assembled from the clearing and writing phases |
| Upload.UploadRunPhases | src/operations/upload.ts:50-109 | An upload with rows is 'parsing', then the clearing phase, then the writing phase when the clear went through |
| Upload.SteadyPercents | src/operations/upload.ts:10-23 | Events with non-decreasing processed rows within the total have percentages within 0..100 that never decrease |
| Upload.UploadRunExtendsLog | src/operations/upload.ts:35-116 | An upload only appends to the service's log |
| Batch.BatchUpload | src/operations/batch.ts:7-28 | The loop's requests, failure and logged lines are exactly those of the batch trace |
| Batch.BatchFromOutcome | src/operations/batch.ts:15-25 | From any operation on, the uploads run in order until the first that fails; the log and failure are that upload's, and one line is logged per attempted operation |
| Batch.BatchOutcome | src/operations/batch.ts:13-27 | Operations are uploaded one at a time in index order and the first failure ends the batch; the completion line is logged exactly when every operation succeeded |
| Batch.LogOnlyGrows | src/operations/batch.ts:15-25 | Earlier uploads are never undone: the requests already sent stay at the head of the log |
| Batch.OperationDefaults | src/operations/batch.ts:19-24 | A missing mode means replace and a missing includeHeaders means true; an append always starts at A1; sheet and data pass through |
| Batch.StartLineExample | src/operations/batch.ts:13 | Two operations log "Starting batch upload: 2 operation(s)" |
| Batch.OperationLineExample | src/operations/batch.ts:17 | The first of two operations, to "Sales", logs `[1/2] Uploading to sheet "Sales"...` |
| Batch.DoneLineExample | src/operations/batch.ts:27 | Two operations end with "Batch upload complete: 2 sheet(s) updated." |
| Validation.FirstFailing | src/utils/validation.ts:5-19 | Guards run in order: the outcome is None exactly when all pass, and otherwise the error of the first that fails |
| Validation.ValidateConfig | src/utils/validation.ts:4-20 | A missing config is refused first; otherwise the first failing check among credentials, spreadsheetId, retries and rate decides the error |
| Validation.ConfigAccepted | src/utils/validation.ts:8-19 | A config is accepted exactly when its credentials are truthy, its spreadsheetId a non-empty string, its retries a whole number ≥ 0 when given, and its rate positive when given |
| Validation.CredentialsCheckedFirst | src/utils/validation.ts:8-10 | Falsy credentials are reported before anything else |
| Validation.RetriesCheckedBeforeRate | src/utils/validation.ts:14-19 | Negative or fractional retries are refused, and reported before a bad rate |
| Validation.RateAndIdExamples | src/utils/validation.ts:11-19 | A rate of 0 is refused, a numeric spreadsheetId is refused, and credentials with a string id alone are accepted |
| Validation.ValidateUploadOptions | src/utils/validation.ts:22-40 | Missing options are refused first; otherwise the first failing check among sheet, data, mode and start cell decides the error |
| Validation.StartCellAgreesWithParser | src/utils/validation.ts:35-39 | Once sheet, data and mode pass, a start cell is accepted exactly when it is empty or the cell parser accepts it; an omitted one is accepted |
| Validation.SheetCheckedFirst | src/utils/validation.ts:26-28 | An empty sheet name is reported before missing data or a bad mode |
| Validation.DataCheckedBeforeMode | src/utils/validation.ts:29-34 | Undefined data is reported before a bad mode |
| Validation.BadModeNamed | src/utils/validation.ts:32-34 | A mode other than replace or append is refused with a message naming it |
| Validation.StartCellExamples | src/utils/validation.ts:35-39 | "1A" is refused with a message naming it; "b5" is accepted |
| Validation.ValidateReadOptions | src/utils/validation.ts:42-49 | Read options are accepted exactly when present with a non-empty sheet name, with the matching error otherwise |
| Validation.FirstInvalidFrom | src/utils/validation.ts:55-62 | From an index on, the outcome is None exactly when every operation has a sheet and data, and otherwise the error of the first that lacks one |
| Validation.ValidateBatchOperations | src/utils/validation.ts:51-63 | An empty list is refused; otherwise the list is accepted exactly when every operation has a sheet and data, and the first operation lacking one is reported by its index |
| Validation.FirstBadIndexReported | src/utils/validation.ts:55-62 | Operations are checked in index order: a bad second operation is reported as index 1 |
| Validation.SheetCheckedBeforeData | src/utils/validation.ts:56-61 | Within one operation a missing sheet is reported before missing data |

## Left out

- File reading and the workbook parser are not part of this model. `Resolver.Files` passes them in as functions: what reading a path gives, and what the workbook parser returns or throws.
- The Google Sheets client, authentication, the client facade, the rate limiter, `read.ts` and the logger's console output are not part of this model. The remote service is a `Sheets.Service` that logs each request; which requests fail is fixed by log position.
- Asynchrony and sleeping are not modelled. Each sleep of `withRetry` is recorded only as its duration. `Math.random` is a parameter: the draw used before each retry.
- Numbers are kept as their literal text, and floating-point values are not modelled:
  - `Number()` in `coerceValue` is the grammar of ECMAScript's StringNumericLiteral (`Csv.IsNumericLiteral`), not a float conversion.
  - Numbers inside `JSON.stringify` output are written as their literal. Lone-surrogate escaping is not modelled.
  - `Date.toISOString` is the date's stored ISO text.
- Upload.Percent: `Math.round` is modelled on exact rationals (halves round up), not on the double-precision quotient.
- Validation.Truthy: every number counts as truthy, so 0 and NaN are not told apart from other numbers. `Array.isArray` in `validateBatchOperations` is not modelled: operations are always a list.
- Retry.WithRetry: `retries` is a natural number, the values `validateConfig` admits. `fn` is a function of the attempt number. Only library errors and service errors with a code, status or message are thrown; thrown primitives are not modelled.
- Upload.UploadData: events are returned in order as one list, so their interleaving with the service requests is not captured.
- Upload.UploadData: padding pushes nulls into the serialised copies in place. Here it builds new rows, which shows the caller's rows are unaffected but does not model the aliasing.
- Upload.UploadData: the progress callback is assumed to return normally; `listening` only says whether there is one. In the source a callback that throws changes the outcome:
  - At 'parsing', 'clearing' or 'uploading' 0 (upload.ts:50, 63, 68, before the `try`), or at the 'complete' of an upload without rows (upload.ts:53), its error escapes unwrapped. At 'clearing' and 'uploading' 0 this happens after requests have been sent.
  - After a chunk or at 'complete' (upload.ts:82, 105, 109), its error is caught and rethrown as "Failed to upload data to sheet", even when every write succeeded.
  - So Upload.WriteFailureIsWrapped ("a failure means the last request failed") and Upload.UploadEventsOnSuccess hold only for a callback that does not throw.
- Upload.MaxWidth: the argument-count limit of `Math.max(...)` on very large grids is not modelled.
- Upload.WriteChunks: one method serves both chunk loops, parameterised by how a chunk is sent.
- Resolver.ResolveData: a passed-through array with a later non-array item fails in the resolver with a TypeError. The source fails at the same observable point, in `serializeValues`, after 'parsing' and before any request.
- Clear.FindSheet: a metadata response without a sheet list is an empty list.
- Lower-casing and upper-casing cover ASCII letters only.
- The mode "" is falsy. `validateUploadOptions` accepts it, and the upload then writes ranges without clearing; the model keeps that behaviour.
- The empty upload reports 'parsing' and then 'complete', as the code does.
- Json.Flatten: JavaScript enumerates integer-like keys ("0", "1", "42") first, in ascending numeric order, and the other keys after them in insertion order. The model keeps every key in insertion order, in `Object.entries`, `Object.keys` and the header set alike. For records with such keys the headers and cells can come in a different order: `[{"1":{"b":2},"3":4}]` has the headers ["3", "1.b"] in JavaScript and ["1.b", "3"] here.
- Json.RowFor: lookups and assignments are own-field only. In JavaScript `item[header]` also finds members inherited from `Object.prototype` (`constructor`, `toString`, `valueOf`, `hasOwnProperty`, ...). A record lacking such a header therefore reads a function there, which becomes its `String` text; the model gives null. Assigning the key `__proto__` in `flattenObject` sets the prototype, so it never becomes an own key; here it is an ordinary key.
- Json.ParseJson: carries the two gaps above. Header and cell order differ for integer-like keys (see Json.Flatten), and inherited names and `__proto__` differ (see Json.RowFor); otherwise it returns or throws what `parseJSON` does.
- JSON records follow the code's `typeof item === 'object'` test. Arrays and Dates are accepted as records: an array's entries are keyed by index, and a Date contributes no keys.
- `batchUpload` returns its log lines as a list instead of passing them to a logger.
- The legacy `lib/` implementation and the manual demonstration script are not part of this model.
