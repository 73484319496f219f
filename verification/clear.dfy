/** `clearSheet` of src/operations/clear.ts: find the sheet by title in the
    spreadsheet's metadata, then clear its entered values with one
    request. */
module Clear {
  import opened Types
  import opened Sheets

  /** `sheets?.find(s => s.properties?.title === sheetName)`: the first sheet
      whose title is exactly the name. */
  function FindSheet(metadata: seq<SheetProperties>, sheetName: string): (found: Option<SheetProperties>)
    ensures found.Some? <==> exists i :: 0 <= i < |metadata| && metadata[i].title == Some(sheetName)
    ensures found.Some? ==>
              found.value.title == Some(sheetName)
              && (exists i :: 0 <= i < |metadata| && metadata[i] == found.value
                    && forall j :: 0 <= j < i ==> metadata[j].title != Some(sheetName))
  {
    if metadata == [] then None
    else if metadata[0].title == Some(sheetName) then Some(metadata[0])
    else
      var rest := FindSheet(metadata[1..], sheetName);
      assert forall i :: 1 <= i < |metadata| ==> metadata[i] == metadata[1..][i - 1];
      rest
  }

  /** The sheet id to clear: sheet id 0 counts as found; a missing sheet or
      a sheet without an id does not. */
  function TargetId(metadata: seq<SheetProperties>, sheetName: string): Option<int> {
    match FindSheet(metadata, sheetName)
    case Some(p) => p.sheetId
    case None => None
  }

  /** The catch clause: a SheetNotFoundError passes unchanged, anything else
      becomes an UploaderError naming the sheet, with the original as its
      cause when it is an Error. */
  function ClearFailure(sheetName: string, e: Error): (r: Error)
    ensures e.SheetNotFoundError? ==> r == e
    ensures !e.SheetNotFoundError? ==> r.UploaderError? && r.message == "Failed to clear sheet \"" + sheetName + "\"."
    ensures !e.SheetNotFoundError? && e.IsErrorInstance() ==> r.cause == Some(e)
  {
    if e.SheetNotFoundError? then e else Wrap("Failed to clear sheet \"" + sheetName + "\".", e)
  }

  /** The requests a clear sends and how it ends. */
  datatype Trace = Trace(log: seq<Request>, failure: Option<Error>)

  function ClearTrace(metadata: seq<SheetProperties>, failures: map<nat, Error>, log: seq<Request>,
                      spreadsheetId: string, sheetName: string): Trace
  {
    var afterGet := log + [GetSpreadsheet(spreadsheetId)];
    match FailureAt(failures, |log|)
    case Some(e) => Trace(afterGet, Some(ClearFailure(sheetName, e)))
    case None =>
      match TargetId(metadata, sheetName)
      case None => Trace(afterGet, Some(SheetNotFoundError(sheetName)))
      case Some(id) =>
        var failure := FailureAt(failures, |log| + 1);
        Trace(afterGet + [ClearValues(spreadsheetId, id)],
              if failure.Some? then Some(ClearFailure(sheetName, failure.value)) else None)
  }

  /** `clearSheet(sheets, spreadsheetId, sheetName)`; None when it returns. */
  method ClearSheet(api: Service, spreadsheetId: string, sheetName: string) returns (failure: Option<Error>)
    modifies api
    ensures Trace(api.log, failure) == ClearTrace(api.metadata, api.failures, old(api.log), spreadsheetId, sheetName)
  {
    var getFailure := api.Send(GetSpreadsheet(spreadsheetId));
    if getFailure.Some? {
      return Some(ClearFailure(sheetName, getFailure.value));
    }
    var sheet := FindSheet(api.metadata, sheetName);
    if sheet.None? || sheet.value.sheetId.None? {
      return Some(SheetNotFoundError(sheetName));
    }
    var clearFailure := api.Send(ClearValues(spreadsheetId, sheet.value.sheetId.value));
    if clearFailure.Some? {
      return Some(ClearFailure(sheetName, clearFailure.value));
    }
    return None;
  }

  /** When the metadata arrives, a sheet with an id is cleared with exactly
      one request for the first sheet of that title; otherwise no clear is
      sent and the failure is SheetNotFoundError. */
  lemma {:induction false} ClearRequests(metadata: seq<SheetProperties>, failures: map<nat, Error>, log: seq<Request>,
                      spreadsheetId: string, sheetName: string)
    requires |log| !in failures
    ensures var t := ClearTrace(metadata, failures, log, spreadsheetId, sheetName);
      match TargetId(metadata, sheetName)
      case Some(id) =>
        t.log == log + [GetSpreadsheet(spreadsheetId), ClearValues(spreadsheetId, id)]
        && (t.failure.None? <==> |log| + 1 !in failures)
      case None =>
        t.log == log + [GetSpreadsheet(spreadsheetId)] && t.failure == Some(SheetNotFoundError(sheetName))
  {
  }

  /** A missing title is reported as not found. */
  lemma {:induction false} NotFoundWithoutTitle(metadata: seq<SheetProperties>, sheetName: string)
    requires forall i :: 0 <= i < |metadata| ==> metadata[i].title != Some(sheetName)
    ensures TargetId(metadata, sheetName) == None
  {
  }

  /** When the first sheet with the title has no id, the sheet is reported
      as not found, even if a later sheet with that title has one. */
  lemma {:induction false} NotFoundWithoutId(metadata: seq<SheetProperties>, sheetName: string, i: nat)
    requires i < |metadata| && metadata[i].title == Some(sheetName) && metadata[i].sheetId.None?
    requires forall j :: 0 <= j < i ==> metadata[j].title != Some(sheetName)
    ensures TargetId(metadata, sheetName) == None
  {
    var found := FindSheet(metadata, sheetName);
    var k :| 0 <= k < |metadata| && metadata[k] == found.value
             && forall j :: 0 <= j < k ==> metadata[j].title != Some(sheetName);
    assert metadata[k].title == Some(sheetName);
    assert k == i;
  }

  /** Sheet id 0 counts as found, and the first of two sheets with the same
      title is the one cleared. */
  lemma {:induction false} SheetIdZeroIsFound(sheetName: string, other: int)
    ensures TargetId([SheetProperties(Some(sheetName), Some(0))], sheetName) == Some(0)
    ensures TargetId([SheetProperties(None, Some(5)), SheetProperties(Some(sheetName), Some(0)),
                      SheetProperties(Some(sheetName), Some(other))], sheetName) == Some(0)
  {
    var m := [SheetProperties(None, Some(5)), SheetProperties(Some(sheetName), Some(0)),
              SheetProperties(Some(sheetName), Some(other))];
    assert m[1..][0] == SheetProperties(Some(sheetName), Some(0));
  }

  /** Every failure of a clear is the sheet's SheetNotFoundError, a
      SheetNotFoundError thrown by the service, or an UploaderError that
      names the sheet. */
  lemma {:induction false} ClearFailures(metadata: seq<SheetProperties>, failures: map<nat, Error>, log: seq<Request>,
                      spreadsheetId: string, sheetName: string)
    ensures var t := ClearTrace(metadata, failures, log, spreadsheetId, sheetName);
      t.failure.Some? ==>
        t.failure.value.SheetNotFoundError?
        || (t.failure.value.UploaderError? && t.failure.value.message == "Failed to clear sheet \"" + sheetName + "\".")
  {
  }
}
