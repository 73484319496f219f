/** `batchUpload` of src/operations/batch.ts: the operations are uploaded
    one at a time, in order, each with the defaults filled in, and the
    first failure ends the batch. The logger's info lines are returned in
    order. */
module Batch {
  import opened Types
  import opened Text
  import opened Sheets
  import opened Upload
  import Resolver

  /** The options one operation is uploaded with: replace mode and headers
      unless it says otherwise; no start cell, so an append starts at A1. */
  function OptionsFor(op: BatchOperation): UploadOptions {
    UploadOptions(op.sheet, op.data, Some(op.mode.GetOr("replace")), None, Some(op.includeHeaders.GetOr(true)))
  }

  function StartLine(count: nat): string {
    "Starting batch upload: " + NatToString(count) + " operation(s)"
  }

  /** The line logged before operation `index` (0-based) of `count`. */
  function OperationLine(index: nat, count: nat, sheet: string): string {
    "[" + NatToString(index + 1) + "/" + NatToString(count) + "] Uploading to sheet \"" + sheet + "\"..."
  }

  function DoneLine(count: nat): string {
    "Batch upload complete: " + NatToString(count) + " sheet(s) updated."
  }

  /** The lines logged before operations `from` .. `to` - 1. */
  function OperationLines(operations: seq<BatchOperation>, from: nat, to: nat): (lines: seq<string>)
    requires from <= to <= |operations|
    ensures |lines| == to - from
  {
    seq(to - from, j requires 0 <= j < to - from => OperationLine(from + j, |operations|, operations[from + j].sheet))
  }

  lemma {:induction false} OperationLinesCons(operations: seq<BatchOperation>, from: nat, to: nat)
    requires from < to <= |operations|
    ensures OperationLines(operations, from, to)
         == [OperationLine(from, |operations|, operations[from].sheet)] + OperationLines(operations, from + 1, to)
  {
    var lines := OperationLines(operations, from, to);
    var rest := OperationLines(operations, from + 1, to);
    assert forall j :: 0 <= j < |rest| ==> lines[j + 1] == rest[j];
  }

  /** What a batch leaves behind: the service's log, the lines logged, how
      many operations were attempted, and the failure that ended it. */
  datatype BatchTrace = BatchTrace(log: seq<Request>, lines: seq<string>, attempted: nat, failure: Option<Error>)

  /** How one operation is uploaded, from the requests sent so far. */
  type Step = (seq<Request>, BatchOperation) -> Run

  /** Each operation is an `uploadData` call with its defaults filled in. */
  function UploadStep(metadata: seq<SheetProperties>, failures: map<nat, Error>, spreadsheetId: string,
                      files: Resolver.Files): Step
  {
    (log: seq<Request>, op: BatchOperation) =>
      UploadRun(metadata, failures, log, spreadsheetId, OptionsFor(op), Resolve(OptionsFor(op), files))
  }

  /** The loop from operation `from` on, with `log` the requests sent so
      far. */
  function BatchFrom(step: Step, log: seq<Request>, operations: seq<BatchOperation>, from: nat): BatchTrace
    requires from <= |operations|
    decreases |operations| - from
  {
    if from == |operations| then BatchTrace(log, [DoneLine(|operations|)], from, None)
    else
      var line := OperationLine(from, |operations|, operations[from].sheet);
      var run := step(log, operations[from]);
      if run.failure.Some? then BatchTrace(run.log, [line], from + 1, run.failure)
      else
        var rest := BatchFrom(step, run.log, operations, from + 1);
        BatchTrace(rest.log, [line] + rest.lines, rest.attempted, rest.failure)
  }

  /** `batchUpload(sheets, spreadsheetId, operations, logger)`. */
  function BatchRun(step: Step, log: seq<Request>, operations: seq<BatchOperation>): BatchTrace {
    var b := BatchFrom(step, log, operations, 0);
    BatchTrace(b.log, [StartLine(|operations|)] + b.lines, b.attempted, b.failure)
  }

  /** The loop of batch.ts:15-25. Each upload gets no progress callback,
      so it reports no events. */
  method BatchUpload(api: Service, spreadsheetId: string, operations: seq<BatchOperation>, files: Resolver.Files)
    returns (failure: Option<Error>, lines: seq<string>)
    modifies api
    ensures var b := BatchRun(UploadStep(api.metadata, api.failures, spreadsheetId, files), old(api.log), operations);
      api.log == b.log && failure == b.failure && lines == b.lines
  {
    ghost var step := UploadStep(api.metadata, api.failures, spreadsheetId, files);
    ghost var whole := BatchFrom(step, api.log, operations, 0);
    ghost var logged: seq<string> := [];
    lines := [StartLine(|operations|)];
    for i := 0 to |operations|
      invariant var rest := BatchFrom(step, api.log, operations, i);
        rest.log == whole.log && rest.failure == whole.failure && whole.lines == logged + rest.lines
      invariant lines == [StartLine(|operations|)] + logged
    {
      var op := operations[i];
      var line := OperationLine(i, |operations|, op.sheet);
      lines := lines + [line];
      logged := logged + [line];
      var uploadFailure, events := UploadData(api, spreadsheetId, OptionsFor(op), false, files);
      assert events == [];
      if uploadFailure.Some? {
        return uploadFailure, lines;
      }
    }
    lines := lines + [DoneLine(|operations|)];
    failure := None;
  }

  /** The log after operations 0 .. k - 1 all went through. */
  function LogAfter(step: Step, log: seq<Request>, operations: seq<BatchOperation>, k: nat): seq<Request>
    requires k <= |operations|
  {
    if k == 0 then log else step(LogAfter(step, log, operations, k - 1), operations[k - 1]).log
  }

  /** The upload of operation k, after the ones before it went through. */
  function UploadOf(step: Step, log: seq<Request>, operations: seq<BatchOperation>, k: nat): Run
    requires k < |operations|
  {
    step(LogAfter(step, log, operations, k), operations[k])
  }

  lemma {:induction false} BatchFromOutcome(step: Step, log: seq<Request>, operations: seq<BatchOperation>, from: nat)
    requires from <= |operations|
    requires forall j :: 0 <= j < from ==> UploadOf(step, log, operations, j).failure.None?
    ensures var b := BatchFrom(step, LogAfter(step, log, operations, from), operations, from);
      from <= b.attempted <= |operations|
      && (forall j :: 0 <= j < b.attempted - (if b.failure.Some? then 1 else 0) ==>
            UploadOf(step, log, operations, j).failure.None?)
      && (b.failure.None? ==>
            b.attempted == |operations|
            && b.log == LogAfter(step, log, operations, |operations|)
            && b.lines == OperationLines(operations, from, |operations|) + [DoneLine(|operations|)])
      && (b.failure.Some? ==>
            from < b.attempted
            && b.failure == UploadOf(step, log, operations, b.attempted - 1).failure
            && b.log == UploadOf(step, log, operations, b.attempted - 1).log
            && b.lines == OperationLines(operations, from, b.attempted))
    decreases |operations| - from
  {
    if from < |operations| {
      var run := UploadOf(step, log, operations, from);
      if run.failure.None? {
        BatchFromOutcome(step, log, operations, from + 1);
        var rest := BatchFrom(step, run.log, operations, from + 1);
        OperationLinesCons(operations, from, if rest.failure.None? then |operations| else rest.attempted);
      } else {
        OperationLinesCons(operations, from, from + 1);
      }
    }
  }

  /** The batch uploads the operations one at a time in index order and
      stops at the first that fails: every operation before it went
      through, the failure and the log are that upload's, later operations
      are never attempted, and the completion line is logged exactly when
      every operation succeeded. */
  lemma {:induction false} BatchOutcome(step: Step, log: seq<Request>, operations: seq<BatchOperation>)
    ensures var b := BatchRun(step, log, operations);
      b.attempted <= |operations|
      && (forall j :: 0 <= j < b.attempted - (if b.failure.Some? then 1 else 0) ==>
            UploadOf(step, log, operations, j).failure.None?)
      && (b.failure.None? ==>
            b.attempted == |operations|
            && b.log == LogAfter(step, log, operations, |operations|)
            && b.lines == [StartLine(|operations|)] + OperationLines(operations, 0, |operations|) + [DoneLine(|operations|)])
      && (b.failure.Some? ==>
            0 < b.attempted
            && b.failure == UploadOf(step, log, operations, b.attempted - 1).failure
            && b.log == UploadOf(step, log, operations, b.attempted - 1).log
            && b.lines == [StartLine(|operations|)] + OperationLines(operations, 0, b.attempted))
  {
    BatchFromOutcome(step, log, operations, 0);
  }

  /** Earlier uploads are never undone: the requests already sent stay at
      the head of the log. */
  lemma {:induction false} LogOnlyGrows(metadata: seq<SheetProperties>, failures: map<nat, Error>, log: seq<Request>,
                                        spreadsheetId: string, operations: seq<BatchOperation>, k: nat,
                                        files: Resolver.Files)
    requires k <= |operations|
    ensures var after := LogAfter(UploadStep(metadata, failures, spreadsheetId, files), log, operations, k);
      |log| <= |after| && after[..|log|] == log
  {
    if k > 0 {
      var step := UploadStep(metadata, failures, spreadsheetId, files);
      LogOnlyGrows(metadata, failures, log, spreadsheetId, operations, k - 1, files);
      var before := LogAfter(step, log, operations, k - 1);
      UploadRunExtendsLog(metadata, failures, before, spreadsheetId, OptionsFor(operations[k - 1]), Resolve(OptionsFor(operations[k - 1]), files));
      var after := LogAfter(step, log, operations, k);
      assert after == UploadRun(metadata, failures, before, spreadsheetId, OptionsFor(operations[k - 1]), Resolve(OptionsFor(operations[k - 1]), files)).log;
      assert after[..|log|] == after[..|before|][..|log|];
    }
  }

  /** An operation that leaves out its mode replaces the sheet's contents,
      one that leaves out includeHeaders gets a header row, and an append
      always starts at A1. */
  lemma {:induction false} OperationDefaults(op: BatchOperation, serialized: Grid)
    ensures op.mode.None? ==> OptionsFor(op).mode.GetOr("replace") == "replace"
    ensures op.includeHeaders.None? ==> OptionsFor(op).includeHeaders.GetOr(true)
    ensures op.mode == Some("append") ==> TargetFor(OptionsFor(op), serialized) == AppendAt(op.sheet + "!A1")
    ensures OptionsFor(op).sheet == op.sheet && OptionsFor(op).data == op.data
  {
  }

  /** The lines of a batch of two operations, the first to "Sales". */
  lemma {:induction false} StartLineExample()
    ensures StartLine(2) == "Starting batch upload: 2 operation(s)"
  {
    assert NatToString(2) == "2";
  }

  lemma {:induction false} OperationLineExample()
    ensures OperationLine(0, 2, "Sales") == "[1/2] Uploading to sheet \"Sales\"..."
  {
    assert NatToString(1) == "1";
    assert NatToString(2) == "2";
    assert "[" + "1" == "[1";
    assert "[1" + "/" == "[1/";
    assert "[1/" + "2" == "[1/2";
    assert "[1/2" + "] Uploading to sheet \"" == "[1/2] Uploading to sheet \"";
    assert "[1/2] Uploading to sheet \"" + "Sales" == "[1/2] Uploading to sheet \"Sales";
    assert "[1/2] Uploading to sheet \"Sales" + "\"..." == "[1/2] Uploading to sheet \"Sales\"...";
  }

  lemma {:induction false} DoneLineExample()
    ensures DoneLine(2) == "Batch upload complete: 2 sheet(s) updated."
  {
    assert NatToString(2) == "2";
  }
}
