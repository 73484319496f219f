/** Shared declarations of the uploader: the values the parsers and the
    orchestrator pass around (src/types.ts) and the error taxonomy
    (src/errors.ts). */
module Types {

  datatype Option<+T> = None | Some(value: T) {
    /** The `??` operator: the value when present, `default` otherwise. */
    function GetOr(default: T): T {
      if Some? then value else default
    }
  }

  datatype Result<+T, +E> = Ok(value: T) | Err(error: E)

  /** A JavaScript value as the core sees it. Numbers are kept as the
      numeric literal that denotes them and dates as their ISO-8601
      rendering; the floating-point value and the clock are not modelled.
      Objects are ordered key/value lists in insertion order (integer-like
      keys are not moved to the front as JavaScript enumerates them). */
  datatype Value =
    | Undefined
    | Null
    | Bool(b: bool)
    | Num(literal: string)
    | Str(s: string)
    | Date(iso: string)
    | Arr(items: seq<Value>)
    | Obj(fields: seq<Field>)

  datatype Field = Field(key: string, value: Value)

  /** The source's CellValue: every value except arrays and objects. */
  predicate IsCell(v: Value) {
    !v.Arr? && !v.Obj?
  }

  type Row = seq<Value>
  type Grid = seq<Row>

  /** The `code` property of a thrown object: a number (an HTTP status) or
      a string (a Node.js system error code such as "ECONNRESET"). */
  datatype Code = NumericCode(n: int) | TextCode(s: string)

  /** Everything that can be thrown. The first six are the library's own
      classes (all subclasses of Error); ServiceError is whatever the
      remote client throws, with its optional `code`, `status` and
      `message` properties and whether it is an Error instance. */
  datatype Error =
    | UploaderError(message: string, cause: Option<Error>)
    | ValidationError(message: string)
    | ParseError(format: string, detail: string, parseCause: Option<Error>)
    | SheetNotFoundError(sheet: string)
    | RateLimitError(message: string)
    | PlainError(message: string)
    | ServiceError(code: Option<Code>, status: Option<int>, text: Option<string>, isErrorObject: bool)
  {
    /** The `message` property, or None when the thrown object has none. */
    function Message(): Option<string> {
      match this
      case UploaderError(m, _) => Some(m)
      case ValidationError(m) => Some(m)
      case ParseError(f, d, _) => Some("Failed to parse " + f + " data: " + d)
      case SheetNotFoundError(s) => Some("Sheet \"" + s + "\" not found in the spreadsheet.")
      case RateLimitError(m) => Some(m)
      case PlainError(m) => Some(m)
      case ServiceError(_, _, t, _) => t
    }

    /** `error instanceof Error`. */
    predicate IsErrorInstance() {
      !ServiceError? || isErrorObject
    }
  }

  /** `new UploaderError(message, error instanceof Error ? error : undefined)`:
      the wrapping used by the operations, keeping the original as cause. */
  function Wrap(message: string, e: Error): Error {
    UploaderError(message, if e.IsErrorInstance() then Some(e) else None)
  }

  datatype Phase = Parsing | Clearing | Uploading | Complete

  datatype ProgressEvent = ProgressEvent(phase: Phase, percent: int, totalRows: nat, processedRows: nat)

  /** The options of one upload; an absent optional field is None. */
  datatype UploadOptions = UploadOptions(
    sheet: string,
    data: Value,
    mode: Option<string>,
    startCell: Option<string>,
    includeHeaders: Option<bool>)

  datatype ReadOptions = ReadOptions(sheet: string, range: Option<string>)

  datatype BatchOperation = BatchOperation(
    sheet: string,
    data: Value,
    mode: Option<string>,
    includeHeaders: Option<bool>)

  /** The client configuration. The numeric options are exact reals. */
  datatype UploaderConfig = UploaderConfig(
    credentials: Value,
    spreadsheetId: Value,
    retries: Option<real>,
    retryDelay: Option<real>,
    maxRequestsPerMinute: Option<real>,
    logLevel: Option<string>)
}
