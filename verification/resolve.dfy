/** The input resolver of src/parsers/index.ts: every accepted input shape
    is turned into a grid, by passing it through, by the record parser, or
    by the file parsers chosen from the path's extension. */
module Resolver {
  import opened Types
  import opened Text
  import Csv
  import Json

  /** The outcome of reading a file: it does not exist, reading it threw,
      or its text. */
  datatype FileRead = Missing | ReadFailure(error: Error) | Contents(text: string)

  /** The file system and the spreadsheet-workbook parser, which are not
      part of this model: `readText(path)` reads a UTF-8 file and
      `parseWorkbook(path)` is what the workbook parser returns or throws. */
  datatype Files = Files(readText: string -> FileRead, parseWorkbook: string -> Result<Grid, Error>)

  /** The route `resolveData` takes for an input; only the shape of the
      input and, for a path, its extension decide it. */
  datatype Route =
    | PassThrough
    | Records
    | Workbook
    | DelimitedFile
    | UnknownExtension(ext: string)
    | Unsupported

  /** `data.toLowerCase().split('.').pop()`. */
  function Extension(path: string): string {
    LastPiece(Lower(path), '.')
  }

  /** `typeof item === 'object' && !Array.isArray(item)`: objects, dates and
      null (whose `typeof` is "object" too). */
  predicate IsNonArrayObject(item: Value) {
    item.Obj? || item.Date? || item.Null?
  }

  function RouteOf(data: Value): Route {
    if data.Arr? && (data.items == [] || data.items[0].Arr?) then PassThrough
    else if data.Arr? && IsNonArrayObject(data.items[0]) then Records
    else if data.Str? then
      var ext := Extension(data.s);
      if ext == "xlsx" || ext == "xls" then Workbook
      else if ext == "csv" then DelimitedFile
      else UnknownExtension(ext)
    else Unsupported
  }

  /** What the upload raises when a passed-through row is not an array:
      `row.map` is not a function. */
  const NotARow := PlainError("TypeError: row.map is not a function")

  const InvalidDataMessage := "Invalid data type. Provide a file path (string), JSON array, or 2D array."

  function UnsupportedExtensionMessage(ext: string): string {
    "Unsupported file extension \"." + ext + "\". Supported formats: .xlsx, .xls, .csv"
  }

  /** An array of rows used as it is. */
  function PassedRows(items: seq<Value>): Result<Grid, Error> {
    if forall i :: 0 <= i < |items| ==> items[i].Arr? then
      Ok(seq(|items|, i requires 0 <= i < |items| => items[i].items))
    else Err(NotARow)
  }

  /** `parseCSV(path)`: a missing file and a failed read are ParseErrors
      naming the path; otherwise the text is parsed. */
  function ParseCsvFile(path: string, files: Files): Result<Grid, Error> {
    match files.readText(path)
    case Missing => Err(ParseError("CSV", "File not found: \"" + path + "\"", None))
    case ReadFailure(e) =>
      if e.ParseError? then Err(e)
      else Err(ParseError("CSV", "Could not read file \"" + path + "\".", if e.IsErrorInstance() then Some(e) else None))
    case Contents(text) => Ok(Csv.Parse(text))
  }

  /** `resolveData(data, includeHeaders)`. */
  function ResolveData(data: Value, includeHeaders: bool, files: Files): Result<Grid, Error> {
    match RouteOf(data)
    case PassThrough => PassedRows(data.items)
    case Records => Json.JsonGrid(data, includeHeaders)
    case Workbook => files.parseWorkbook(data.s)
    case DelimitedFile => ParseCsvFile(data.s, files)
    case UnknownExtension(ext) => Err(ValidationError(UnsupportedExtensionMessage(ext)))
    case Unsupported => Err(ValidationError(InvalidDataMessage))
  }

  /** An empty array, or one whose first item is an array, is returned row
      for row; a later item that is not an array fails. */
  lemma {:induction false} ResolvePassThrough(items: seq<Value>, includeHeaders: bool, files: Files)
    requires items == [] || items[0].Arr?
    ensures ResolveData(Arr(items), includeHeaders, files).Ok?
        <==> forall i :: 0 <= i < |items| ==> items[i].Arr?
    ensures ResolveData(Arr(items), includeHeaders, files).Err? ==>
              ResolveData(Arr(items), includeHeaders, files).error == NotARow
    ensures ResolveData(Arr(items), includeHeaders, files).Ok? ==>
              |ResolveData(Arr(items), includeHeaders, files).value| == |items| &&
              forall i :: 0 <= i < |items| ==> ResolveData(Arr(items), includeHeaders, files).value[i] == items[i].items
  {
  }

  /** A non-empty array whose first item is an object, a date or null goes
      to the record parser with the caller's `includeHeaders`. */
  lemma {:induction false} ResolveRecords(items: seq<Value>, includeHeaders: bool, files: Files)
    requires items != [] && IsNonArrayObject(items[0])
    ensures ResolveData(Arr(items), includeHeaders, files) == Json.JsonGrid(Arr(items), includeHeaders)
  {
  }

  /** Only the first item of an array chooses the route. */
  lemma {:induction false} RouteOnlyInspectsFirst(a: seq<Value>, b: seq<Value>)
    requires a != [] && b != [] && a[0] == b[0]
    ensures RouteOf(Arr(a)) == RouteOf(Arr(b))
  {
  }

  /** An array whose first item is a primitive, and anything that is
      neither an array nor a string, is rejected. */
  lemma {:induction false} ResolveRejectsOtherShapes(data: Value, includeHeaders: bool, files: Files)
    requires !data.Str?
    requires !data.Arr? || (data.items != [] && (data.items[0].Undefined? || data.items[0].Bool? || data.items[0].Num? || data.items[0].Str?))
    ensures ResolveData(data, includeHeaders, files) == Err(ValidationError(InvalidDataMessage))
  {
  }

  lemma {:induction false} LowerKeepsDot(s: string)
    ensures '.' in Lower(s) <==> '.' in s
  {
    if '.' in Lower(s) {
      var i :| 0 <= i < |s| && Lower(s)[i] == '.';
      assert s[i] == '.';
    }
    if '.' in s {
      var i :| 0 <= i < |s| && s[i] == '.';
      assert Lower(s)[i] == '.';
    }
  }

  /** The extension is the lower-cased text after the last dot... */
  lemma {:induction false} ExtensionAfterLastDot(a: string, b: string)
    requires '.' !in b
    ensures Extension(a + "." + b) == Lower(b)
  {
    LowerConcat(a + ".", b);
    LowerConcat(a, ".");
    assert Lower(".") == ".";
    LowerKeepsDot(b);
    LastPieceAfterSep(Lower(a), Lower(b), '.');
  }

  /** ...or the whole lower-cased path when it has no dot. */
  lemma {:induction false} ExtensionWithoutDot(s: string)
    requires '.' !in s
    ensures Extension(s) == Lower(s)
  {
    LowerKeepsDot(s);
    SplitOnNoSep(Lower(s), '.');
  }

  /** A path is dispatched on its extension: xlsx and xls to the workbook
      parser, csv to the delimited-text file parser, anything else is a
      ValidationError naming the extension. */
  lemma {:induction false} ResolvePath(a: string, b: string, includeHeaders: bool, files: Files)
    requires '.' !in b
    ensures Lower(b) in {"xlsx", "xls"} ==>
              ResolveData(Str(a + "." + b), includeHeaders, files) == files.parseWorkbook(a + "." + b)
    ensures Lower(b) == "csv" ==>
              ResolveData(Str(a + "." + b), includeHeaders, files) == ParseCsvFile(a + "." + b, files)
    ensures Lower(b) !in {"xlsx", "xls", "csv"} ==>
              ResolveData(Str(a + "." + b), includeHeaders, files)
                == Err(ValidationError(UnsupportedExtensionMessage(Lower(b))))
  {
    ExtensionAfterLastDot(a, b);
  }

  /** A CSV path that names no file fails before anything is read; one that
      reads gives the parsed text. */
  lemma {:induction false} ParseCsvFileOutcomes(path: string, files: Files)
    ensures files.readText(path).Missing? ==>
              ParseCsvFile(path, files) == Err(ParseError("CSV", "File not found: \"" + path + "\"", None))
    ensures files.readText(path).Contents? ==>
              ParseCsvFile(path, files) == Ok(Csv.Parse(files.readText(path).text))
    ensures files.readText(path).ReadFailure? ==> ParseCsvFile(path, files).Err? && ParseCsvFile(path, files).error.ParseError?
  {
  }

  lemma {:induction false} ExtensionExamples()
    ensures Extension("Data.CSV") == "csv"
    ensures Extension("book.v2.xlsx") == "xlsx"
    ensures Extension("notes") == "notes"
  {
    assert "Data.CSV" == "Data" + "." + "CSV";
    ExtensionAfterLastDot("Data", "CSV");
    assert Lower("CSV") == "csv";
    assert "book.v2.xlsx" == "book.v2" + "." + "xlsx";
    ExtensionAfterLastDot("book.v2", "xlsx");
    assert Lower("xlsx") == "xlsx";
    ExtensionWithoutDot("notes");
    assert Lower("notes") == "notes";
  }
}
