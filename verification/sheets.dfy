/** The remote spreadsheet service as the operations see it: a sink that
    records every request in order and answers with the spreadsheet's
    sheet list. Which requests fail is fixed up front, by the request's
    position in the log. */
module Sheets {
  import opened Types

  /** The `properties` of one sheet in the spreadsheet's metadata. */
  datatype SheetProperties = SheetProperties(title: Option<string>, sheetId: Option<int>)

  /** One request, with the spreadsheet it targets. */
  datatype Request =
      /** `spreadsheets.get`: the metadata, listing the sheets. */
    | GetSpreadsheet(spreadsheetId: string)
      /** `spreadsheets.batchUpdate` with one `updateCells` request over the
          sheet from row index 0 and column index 0, for the field
          `userEnteredValue`. */
    | ClearValues(spreadsheetId: string, sheetId: int)
      /** `values.update` of a range, input option RAW. */
    | UpdateValues(spreadsheetId: string, range: string, values: Grid)
      /** `values.append` after the table at a range, input option RAW,
          inserting rows. */
    | AppendValues(spreadsheetId: string, range: string, values: Grid)

  /** The failure, if any, of the request at position `n` of the log. */
  function FailureAt(failures: map<nat, Error>, n: nat): Option<Error> {
    if n in failures then Some(failures[n]) else None
  }

  class Service {
    /** The sheets `spreadsheets.get` reports. */
    const metadata: seq<SheetProperties>
    /** The error thrown by the request at each failing log position. */
    const failures: map<nat, Error>
    /** Every request sent so far, in order. */
    var log: seq<Request>

    constructor (metadata: seq<SheetProperties>, failures: map<nat, Error>)
      ensures this.metadata == metadata && this.failures == failures && log == []
    {
      this.metadata := metadata;
      this.failures := failures;
      log := [];
    }

    /** Sends one request: it is logged, and it fails as planned. */
    method Send(request: Request) returns (failure: Option<Error>)
      modifies this
      ensures log == old(log) + [request]
      ensures failure == FailureAt(failures, |old(log)|)
    {
      failure := FailureAt(failures, |log|);
      log := log + [request];
    }
  }
}
