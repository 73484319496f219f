/** The input guards of src/utils/validation.ts. Each validator either
    accepts its argument (None) or reports the ValidationError of the first
    check that fails, in a fixed order. An absent argument is None. */
module Validation {
  import opened Types
  import opened Text
  import Range

  /** One guard: whether it passes, and the message thrown when it does
      not. */
  datatype Check = Check(passes: bool, message: string)

  /** The outcome of running guards in order: the error of the first that
      fails, or None when all pass. */
  function FirstFailing(checks: seq<Check>): (r: Option<Error>)
    ensures r.None? <==> forall i :: 0 <= i < |checks| ==> checks[i].passes
    ensures r.Some? ==>
              exists i :: 0 <= i < |checks| && !checks[i].passes
                && r.value == ValidationError(checks[i].message)
                && forall j :: 0 <= j < i ==> checks[j].passes
  {
    if checks == [] then None
    else if !checks[0].passes then Some(ValidationError(checks[0].message))
    else
      var rest := FirstFailing(checks[1..]);
      assert forall i :: 1 <= i < |checks| ==> checks[i] == checks[1..][i - 1];
      rest
  }

  /** Four guards run in order. */
  lemma {:induction false} FirstFailingOfFour(checks: seq<Check>)
    requires |checks| == 4
    ensures FirstFailing(checks) ==
      if !checks[0].passes then Some(ValidationError(checks[0].message))
      else if !checks[1].passes then Some(ValidationError(checks[1].message))
      else if !checks[2].passes then Some(ValidationError(checks[2].message))
      else if !checks[3].passes then Some(ValidationError(checks[3].message))
      else None
  {
    var rest := checks[1..];
    assert rest[1..][1..][1..] == [];
  }

  /** JavaScript truthiness of a value. A number counts as truthy: 0 and
      NaN are not told apart from other numbers. */
  predicate Truthy(v: Value) {
    match v
    case Undefined => false
    case Null => false
    case Bool(b) => b
    case Str(s) => s != ""
    case _ => true
  }

  /** `Number.isInteger` on an exact number. */
  predicate IsInteger(x: real) {
    x.Floor as real == x
  }

  /** `value === undefined || value === null`. */
  predicate IsNullish(v: Value) {
    v.Undefined? || v.Null?
  }

  const CredentialsMessage := "credentials is required. Provide a file path, credentials object, or GoogleAuth instance."
  const SpreadsheetIdMessage := "spreadsheetId is required and must be a non-empty string."
  const RetriesMessage := "retries must be a non-negative integer."
  const RateMessage := "maxRequestsPerMinute must be a positive number."
  const SheetMessage := "sheet name is required and must be a non-empty string."
  const DataMessage := "data is required. Provide a file path, JSON array, or 2D array."

  /** The checks of `validateConfig` after the presence check, in order. */
  function ConfigChecks(config: UploaderConfig): seq<Check> {
    [ Check(Truthy(config.credentials), CredentialsMessage),
      Check(config.spreadsheetId.Str? && config.spreadsheetId.s != "", SpreadsheetIdMessage),
      Check(config.retries.None? || (config.retries.value >= 0.0 && IsInteger(config.retries.value)), RetriesMessage),
      Check(config.maxRequestsPerMinute.None? || config.maxRequestsPerMinute.value > 0.0, RateMessage) ]
  }

  /** `validateConfig(config)`. */
  function ValidateConfig(config: Option<UploaderConfig>): (r: Option<Error>)
    ensures config.None? ==> r == Some(ValidationError("Config is required."))
    ensures config.Some? ==> r == FirstFailing(ConfigChecks(config.value))
  {
    if config.None? then Some(ValidationError("Config is required."))
    else
      var c := config.value;
      FirstFailingOfFour(ConfigChecks(c));
      if !Truthy(c.credentials) then Some(ValidationError(CredentialsMessage))
      else if !c.spreadsheetId.Str? || c.spreadsheetId.s == "" then Some(ValidationError(SpreadsheetIdMessage))
      else if c.retries.Some? && (c.retries.value < 0.0 || !IsInteger(c.retries.value)) then
        Some(ValidationError(RetriesMessage))
      else if c.maxRequestsPerMinute.Some? && c.maxRequestsPerMinute.value <= 0.0 then
        Some(ValidationError(RateMessage))
      else None
  }

  /** A configuration is accepted exactly when its credentials are truthy,
      its spreadsheet id a non-empty string, its retries (when given) a
      whole number at least 0 and its rate (when given) positive; the
      optional fields may be omitted. */
  lemma {:induction false} ConfigAccepted(config: UploaderConfig)
    ensures ValidateConfig(Some(config)).None? <==>
              Truthy(config.credentials)
              && config.spreadsheetId.Str? && config.spreadsheetId.s != ""
              && (config.retries.Some? ==> config.retries.value >= 0.0 && config.retries.value.Floor as real == config.retries.value)
              && (config.maxRequestsPerMinute.Some? ==> config.maxRequestsPerMinute.value > 0.0)
  {
    var checks := ConfigChecks(config);
    if ValidateConfig(Some(config)).None? {
      assert checks[0].passes && checks[1].passes && checks[2].passes && checks[3].passes;
    }
  }

  /** The first failing check decides the error: missing credentials are
      reported before anything else. */
  lemma {:induction false} CredentialsCheckedFirst(credentials: Value, spreadsheetId: Value, retries: real, rate: real)
    requires !Truthy(credentials)
    ensures ValidateConfig(Some(UploaderConfig(credentials, spreadsheetId, Some(retries), None, Some(rate), None)))
              == Some(ValidationError(CredentialsMessage))
  {
  }

  /** A negative or fractional retries value is refused, and reported
      before a bad rate. */
  lemma {:induction false} RetriesCheckedBeforeRate()
    ensures ValidateConfig(Some(UploaderConfig(Str("key.json"), Str("sheet-id"), Some(-1.0), None, Some(0.0), None)))
              == Some(ValidationError(RetriesMessage))
    ensures ValidateConfig(Some(UploaderConfig(Str("key.json"), Str("sheet-id"), Some(1.5), None, None, None)))
              == Some(ValidationError(RetriesMessage))
  {
    assert (1.5).Floor == 1;
  }

  /** A rate of 0 is refused; a configuration with only credentials and a
      string spreadsheet id is accepted, and a numeric id is refused. */
  lemma {:induction false} RateAndIdExamples()
    ensures ValidateConfig(Some(UploaderConfig(Str("key.json"), Str("sheet-id"), Some(3.0), None, Some(0.0), None)))
              == Some(ValidationError(RateMessage))
    ensures ValidateConfig(Some(UploaderConfig(Str("key.json"), Str("sheet-id"), None, None, None, None))) == None
    ensures ValidateConfig(Some(UploaderConfig(Str("key.json"), Num("42"), None, None, None, None)))
              == Some(ValidationError(SpreadsheetIdMessage))
  {
  }

  /** `Invalid mode "m". Must be "replace" or "append".` */
  function ModeMessage(mode: string): string {
    "Invalid mode \"" + mode + "\". Must be \"replace\" or \"append\"."
  }

  /** `Invalid startCell "c". Must be in A1 notation (e.g., "A1", "B5").` */
  function StartCellMessage(cell: string): string {
    "Invalid startCell \"" + cell + "\". Must be in A1 notation (e.g., \"A1\", \"B5\")."
  }

  /** The checks of `validateUploadOptions` after the presence check, in
      order. An empty mode or start cell is falsy and skips its check. */
  function UploadOptionsChecks(options: UploadOptions): seq<Check> {
    var mode := options.mode.GetOr("");
    var cell := options.startCell.GetOr("");
    [ Check(options.sheet != "", SheetMessage),
      Check(!IsNullish(options.data), DataMessage),
      Check(mode == "" || mode == "replace" || mode == "append", ModeMessage(mode)),
      Check(cell == "" || Range.IsCellAddress(cell), StartCellMessage(cell)) ]
  }

  /** `validateUploadOptions(options)`. */
  function ValidateUploadOptions(options: Option<UploadOptions>): (r: Option<Error>)
    ensures options.None? ==> r == Some(ValidationError("Upload options are required."))
    ensures options.Some? ==> r == FirstFailing(UploadOptionsChecks(options.value))
  {
    if options.None? then Some(ValidationError("Upload options are required."))
    else
      var o := options.value;
      FirstFailingOfFour(UploadOptionsChecks(o));
      if o.sheet == "" then Some(ValidationError(SheetMessage))
      else if o.data.Undefined? || o.data.Null? then Some(ValidationError(DataMessage))
      else if o.mode.Some? && o.mode.value != "" && o.mode.value != "replace" && o.mode.value != "append" then
        Some(ValidationError(ModeMessage(o.mode.value)))
      else if o.startCell.Some? && o.startCell.value != "" && !Range.IsCellAddress(o.startCell.value) then
        Some(ValidationError(StartCellMessage(o.startCell.value)))
      else None
  }

  /** Once the sheet, the data and the mode pass, a non-empty start cell
      is accepted exactly when the cell parser accepts it; the mode and
      the start cell may be omitted. */
  lemma {:induction false} StartCellAgreesWithParser(sheet: string, data: Value, mode: Option<string>, cell: string,
                                  includeHeaders: Option<bool>)
    requires sheet != "" && !IsNullish(data)
    requires mode.None? || mode.value in {"", "replace", "append"}
    ensures ValidateUploadOptions(Some(UploadOptions(sheet, data, mode, Some(cell), includeHeaders))).None?
        <==> cell == "" || Range.CellOf(cell).Ok?
    ensures ValidateUploadOptions(Some(UploadOptions(sheet, data, mode, None, includeHeaders))).None?
  {
  }

  /** An empty sheet name is reported before anything else. */
  lemma {:induction false} SheetCheckedFirst(cell: Option<string>)
    ensures ValidateUploadOptions(Some(UploadOptions("", Null, Some("merge"), cell, None)))
              == Some(ValidationError(SheetMessage))
  {
  }

  /** Missing data is reported before a bad mode. */
  lemma {:induction false} DataCheckedBeforeMode(cell: Option<string>)
    ensures ValidateUploadOptions(Some(UploadOptions("Data", Undefined, Some("merge"), cell, None)))
              == Some(ValidationError(DataMessage))
  {
  }

  /** A mode other than replace or append is named in the error. */
  lemma {:induction false} BadModeNamed(cell: Option<string>)
    ensures ValidateUploadOptions(Some(UploadOptions("Data", Str("a.csv"), Some("merge"), cell, None)))
              == Some(ValidationError(ModeMessage("merge")))
  {
  }

  /** A start cell must be letters then digits, in either case. */
  lemma {:induction false} StartCellExamples()
    ensures ValidateUploadOptions(Some(UploadOptions("Data", Str("a.csv"), Some("append"), Some("1A"), None)))
              == Some(ValidationError(StartCellMessage("1A")))
    ensures ValidateUploadOptions(Some(UploadOptions("Data", Str("a.csv"), None, Some("b5"), None))) == None
  {
    assert Range.LeadingLetters("1A") == 0;
    assert Range.LeadingLetters("b5") == 1 by {
      assert "b5"[1..] == "5";
      assert Range.LeadingLetters("5") == 0;
    }
    assert "b5"[1..] == "5";
  }

  /** `validateReadOptions(options)`. */
  function ValidateReadOptions(options: Option<ReadOptions>): (r: Option<Error>)
    ensures r.None? <==> options.Some? && options.value.sheet != ""
    ensures options.None? ==> r == Some(ValidationError("Read options are required."))
    ensures options.Some? && options.value.sheet == "" ==> r == Some(ValidationError(SheetMessage))
  {
    if options.None? then Some(ValidationError("Read options are required."))
    else if options.value.sheet == "" then Some(ValidationError(SheetMessage))
    else None
  }

  /** Whether operation `op` passes, sheet before data. */
  predicate OperationValid(op: BatchOperation) {
    op.sheet != "" && !IsNullish(op.data)
  }

  /** `Batch operation at index i is missing "p" property.` */
  function MissingMessage(index: nat, property: string): string {
    "Batch operation at index " + NatToString(index) + " is missing \"" + property + "\" property."
  }

  /** The error for the operation at `index`, which does not pass. */
  function OperationError(op: BatchOperation, index: nat): Error {
    if op.sheet == "" then ValidationError(MissingMessage(index, "sheet"))
    else ValidationError(MissingMessage(index, "data"))
  }

  /** The `forEach` from index `from` on: the error of the first operation
      that does not pass. */
  function FirstInvalidFrom(operations: seq<BatchOperation>, from: nat): (r: Option<Error>)
    requires from <= |operations|
    ensures r.None? <==> forall i :: from <= i < |operations| ==> OperationValid(operations[i])
    ensures r.Some? ==>
              exists i :: from <= i < |operations| && !OperationValid(operations[i])
                && r.value == OperationError(operations[i], i)
                && forall j :: from <= j < i ==> OperationValid(operations[j])
    decreases |operations| - from
  {
    if from == |operations| then None
    else if !OperationValid(operations[from]) then Some(OperationError(operations[from], from))
    else FirstInvalidFrom(operations, from + 1)
  }

  /** `validateBatchOperations(operations)`: an empty list is rejected;
      otherwise the first operation without a sheet or without data is
      reported by its index. */
  function ValidateBatchOperations(operations: seq<BatchOperation>): (r: Option<Error>)
    ensures operations == [] ==> r == Some(ValidationError("Batch operations must be a non-empty array."))
    ensures r.None? <==> operations != [] && forall i :: 0 <= i < |operations| ==> OperationValid(operations[i])
    ensures operations != [] && r.Some? ==>
              exists i :: 0 <= i < |operations| && !OperationValid(operations[i])
                && r.value == OperationError(operations[i], i)
                && forall j :: 0 <= j < i ==> OperationValid(operations[j])
  {
    if operations == [] then Some(ValidationError("Batch operations must be a non-empty array."))
    else FirstInvalidFrom(operations, 0)
  }

  /** Operations are checked in index order: the first bad index is
      reported. */
  lemma {:induction false} FirstBadIndexReported()
    ensures ValidateBatchOperations([BatchOperation("A", Str("a.csv"), None, None), BatchOperation("", Null, None, None)])
              == Some(ValidationError(MissingMessage(1, "sheet")))
  {
    var ops := [BatchOperation("A", Str("a.csv"), None, None), BatchOperation("", Null, None, None)];
    assert OperationValid(ops[0]) && !OperationValid(ops[1]);
    assert FirstInvalidFrom(ops, 0) == FirstInvalidFrom(ops, 1);
  }

  /** Within one operation the sheet is checked before the data. */
  lemma {:induction false} SheetCheckedBeforeData()
    ensures ValidateBatchOperations([BatchOperation("", Undefined, None, None)])
              == Some(ValidationError(MissingMessage(0, "sheet")))
    ensures ValidateBatchOperations([BatchOperation("A", Undefined, None, None)])
              == Some(ValidationError(MissingMessage(0, "data")))
  {
  }
}
