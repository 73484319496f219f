/** `uploadData` of src/operations/upload.ts: resolve the input to rows,
    clear the sheet in replace mode, write the rows in chunks of 10,000
    and report progress. The remote service is a `Sheets.Service`; the
    progress callback is either present (`listening`) or not, and what it
    would receive is returned in order. */
module Upload {
  import opened Types
  import opened Text
  import Range
  import Resolver
  import opened Sheets
  import Clear

  /** Rows per write request. */
  const ChunkSize: nat := 10000

  function Min(a: int, b: int): int {
    if a <= b then a else b
  }

  // ---------------------------------------------------------------------
  // Progress

  /** `Math.round(processed / total * 100)` on exact numbers (round half
      up), and 100 when there is nothing to process. */
  function Percent(processed: nat, total: nat): int {
    if total == 0 then 100 else Quotient(200 * processed + total, 2 * total)
  }

  /** Whole-number division, as repeated subtraction. */
  function Quotient(x: nat, d: nat): nat
    requires d > 0
    decreases x
  {
    if x < d then 0 else 1 + Quotient(x - d, d)
  }

  /** The quotient is the largest q with d * q <= x. */
  lemma {:induction false} QuotientBounds(x: nat, d: nat)
    requires d > 0
    ensures d * Quotient(x, d) <= x < d * (Quotient(x, d) + 1)
    decreases x
  {
    if x >= d {
      QuotientBounds(x - d, d);
    }
  }

  /** The percentage is the nearest whole number to 100 * processed / total
      (halves rounded up) and stays within 0..100. */
  lemma {:induction false} PercentBounds(processed: nat, total: nat)
    requires processed <= total
    ensures 0 <= Percent(processed, total) <= 100
    ensures total > 0 ==>
      2 * total * Percent(processed, total) <= 200 * processed + total < 2 * total * (Percent(processed, total) + 1)
  {
    if total > 0 {
      var p := Percent(processed, total);
      var d := 2 * total;
      var x := 200 * processed + total;
      assert p == Quotient(x, d);
      QuotientBounds(x, d);
      assert x < d * 101;
      ScaleLess(d, p, 101);
    }
  }

  lemma {:induction false} ScaleLess(d: int, a: int, b: int)
    requires d > 0 && d * a < d * b
    ensures a < b
  {
  }

  /** More processed rows never lower the percentage. */
  lemma {:induction false} PercentMonotone(a: nat, b: nat, total: nat)
    requires a <= b
    ensures Percent(a, total) <= Percent(b, total)
  {
    if total > 0 {
      var d := 2 * total;
      var x, y := 200 * a + total, 200 * b + total;
      QuotientBounds(x, d);
      QuotientBounds(y, d);
      assert d * Quotient(x, d) < d * (Quotient(y, d) + 1);
      ScaleLess(d, Quotient(x, d), Quotient(y, d) + 1);
    }
  }

  /** No rows processed is 0%, all of them 100%. */
  lemma {:induction false} PercentEnds(total: nat)
    requires total > 0
    ensures Percent(0, total) == 0 && Percent(total, total) == 100
  {
    PercentBounds(0, total);
    var p := Percent(total, total);
    PercentBounds(total, total);
    var d := 2 * total;
    assert d * p <= 201 * total < 202 * total;
    assert d * p < d * 101;
    ScaleLess(d, p, 101);
    assert d * 100 < d * (p + 1);
    ScaleLess(d, 100, p + 1);
  }

  /** `emitProgress(onProgress, phase, processedRows, totalRows)`'s event. */
  function Event(phase: Phase, processed: nat, total: nat): ProgressEvent {
    ProgressEvent(phase, Percent(processed, total), total, processed)
  }

  /** The events a callback receives: all of them, or none when there is no
      callback. */
  function Heard(listening: bool, events: seq<ProgressEvent>): seq<ProgressEvent> {
    if listening then events else []
  }

  /** One `emitProgress` call. */
  function Emit(listening: bool, events: seq<ProgressEvent>, e: ProgressEvent): seq<ProgressEvent> {
    if listening then events + [e] else events
  }

  // ---------------------------------------------------------------------
  // Rows

  /** `serializeValues` on one cell: a date becomes its ISO text, undefined
      becomes null. */
  function SerializeCell(v: Value): Value {
    match v
    case Date(iso) => Str(iso)
    case Undefined => Null
    case _ => v
  }

  function Serialize(rows: Grid): Grid {
    seq(|rows|, i requires 0 <= i < |rows| => seq(|rows[i]|, j requires 0 <= j < |rows[i]| => SerializeCell(rows[i][j])))
  }

  /** Serializing keeps every row and column, turns dates into their text
      and undefined into null, leaves every other cell alone, and leaves no
      date or undefined behind. */
  lemma {:induction false} SerializeSpec(rows: Grid)
    ensures |Serialize(rows)| == |rows|
    ensures forall i :: 0 <= i < |rows| ==> |Serialize(rows)[i]| == |rows[i]|
    ensures forall i, j :: 0 <= i < |rows| && 0 <= j < |rows[i]| ==>
      var v, c := rows[i][j], Serialize(rows)[i][j];
      !c.Date? && !c.Undefined?
      && (v.Date? ==> c == Str(v.iso))
      && (v.Undefined? ==> c == Null)
      && (!v.Date? && !v.Undefined? ==> c == v)
  {
  }

  /** `Math.max(...rows.map(r => r.length))` for at least one row; 0 for
      none. */
  function MaxWidth(rows: Grid): (w: nat)
    ensures forall i :: 0 <= i < |rows| ==> |rows[i]| <= w
    ensures rows != [] ==> exists i :: 0 <= i < |rows| && |rows[i]| == w
  {
    if rows == [] then 0
    else
      var rest := MaxWidth(rows[1..]);
      assert forall i :: 1 <= i < |rows| ==> rows[i] == rows[1..][i - 1];
      if |rows[0]| >= rest then |rows[0]| else rest
  }

  function Nulls(n: nat): (r: Row)
    ensures |r| == n
  {
    seq(n, _ => Null)
  }

  /** A row extended with nulls to `width` cells. */
  function Pad(row: Row, width: nat): Row {
    if |row| >= width then row else row + Nulls(width - |row|)
  }

  /** Padding keeps the row as a prefix, adds only nulls, and gives
      `width` cells unless the row was already longer. */
  lemma {:induction false} PadSpec(row: Row, width: nat)
    ensures |Pad(row, width)| == if |row| >= width then |row| else width
    ensures Pad(row, width)[..|row|] == row
    ensures forall k :: |row| <= k < |Pad(row, width)| ==> Pad(row, width)[k] == Null
  {
  }

  /** `while (row.length < maxCols) row.push(null)` on one row. */
  method PadRow(row: Row, width: nat) returns (padded: Row)
    ensures padded == Pad(row, width)
  {
    padded := row;
    while |padded| < width
      invariant |row| <= |padded| && padded == row + Nulls(|padded| - |row|)
      invariant |padded| > |row| ==> |padded| <= width
      decreases width - |padded|
    {
      assert row + Nulls(|padded| + 1 - |row|) == padded + [Null];
      padded := padded + [Null];
    }
    assert |padded| == |row| ==> padded == row;
  }

  function PadAll(rows: Grid, width: nat): (padded: Grid)
    ensures |padded| == |rows|
  {
    seq(|rows|, i requires 0 <= i < |rows| => Pad(rows[i], width))
  }

  /** The `serialized.map(...)` that pads every row in place. */
  method PadRows(rows: Grid, width: nat) returns (padded: Grid)
    ensures padded == PadAll(rows, width)
  {
    padded := [];
    for i := 0 to |rows|
      invariant padded == PadAll(rows[..i], width)
    {
      var row := PadRow(rows[i], width);
      assert rows[..i + 1][..i] == rows[..i];
      padded := padded + [row];
    }
    assert rows[..|rows|] == rows;
  }

  /** Padded to the widest row, every row has exactly that many cells,
      starts with its original cells and continues with nulls. */
  lemma {:induction false} PadAllToWidest(rows: Grid)
    ensures var w := MaxWidth(rows);
      forall i :: 0 <= i < |rows| ==>
        |PadAll(rows, w)[i]| == w && PadAll(rows, w)[i][..|rows[i]|] == rows[i]
        && forall k :: |rows[i]| <= k < w ==> PadAll(rows, w)[i][k] == Null
  {
    var w := MaxWidth(rows);
    forall i | 0 <= i < |rows|
      ensures |PadAll(rows, w)[i]| == w && PadAll(rows, w)[i][..|rows[i]|] == rows[i]
      ensures forall k :: |rows[i]| <= k < w ==> PadAll(rows, w)[i][k] == Null
    {
      PadSpec(rows[i], w);
    }
  }

  // ---------------------------------------------------------------------
  // Chunked writes

  /** Where the chunks go: appended after the table at one fixed range, or
      written over consecutive row ranges of a sheet `width` columns wide. */
  datatype Target = AppendAt(range: string) | WriteRange(sheet: string, width: nat)

  /** The request for the chunk that starts at 0-based row `offset`. In a
      written range the chunk covers rows offset + 1 .. offset + |chunk|
      and columns 1 .. width. */
  function ChunkRequest(spreadsheetId: string, target: Target, chunk: Grid, offset: nat): Request {
    match target
    case AppendAt(range) => AppendValues(spreadsheetId, range, chunk)
    case WriteRange(sheet, width) =>
      UpdateValues(spreadsheetId, Range.BuildRange(sheet, offset + 1, 1, offset + |chunk|, width), chunk)
  }

  /** How the chunk loop sends the chunk that starts at a 0-based row. */
  type Writer = (Grid, nat) -> Request

  /** The writer of a target. */
  function WriterFor(spreadsheetId: string, target: Target): Writer {
    (chunk: Grid, offset: nat) => ChunkRequest(spreadsheetId, target, chunk, offset)
  }

  /** What a run of requests leaves behind: the service's log, the events
      emitted, and the failure that ended it, if any. */
  datatype Run = Run(log: seq<Request>, events: seq<ProgressEvent>, failure: Option<Error>)

  /** The chunk loop from 0-based row `offset` on, where `rows` are the rows
      not sent yet: one request per chunk of at most ChunkSize rows, each
      followed by an 'uploading' event, until a request fails. */
  function WriteRun(failures: map<nat, Error>, log: seq<Request>, write: Writer,
                    rows: Grid, offset: nat, total: nat): Run
    decreases |rows|
  {
    if rows == [] then Run(log, [], None)
    else
      var n := Min(ChunkSize, |rows|);
      var request := write(rows[..n], offset);
      match FailureAt(failures, |log|)
      case Some(e) => Run(log + [request], [], Some(e))
      case None =>
        var rest := WriteRun(failures, log + [request], write, rows[n..], offset + n, total);
        Run(rest.log, [Event(Uploading, Min(offset + ChunkSize, total), total)] + rest.events, rest.failure)
  }

  /** One round of the chunk loop at row `i`. */
  lemma {:induction false} WriteRunStep(failures: map<nat, Error>, log: seq<Request>, write: Writer,
                     rows: Grid, i: nat)
    requires i < |rows|
    ensures var end := Min(i + ChunkSize, |rows|);
      var request := write(rows[i..end], i);
      var w := WriteRun(failures, log, write, rows[i..], i, |rows|);
      var next := WriteRun(failures, log + [request], write, rows[end..], end, |rows|);
      (|log| in failures ==> w == Run(log + [request], [], Some(failures[|log|])))
      && (|log| !in failures ==>
            w == Run(next.log, [Event(Uploading, end, |rows|)] + next.events, next.failure))
  {
    var end := Min(i + ChunkSize, |rows|);
    assert rows[i..][..Min(ChunkSize, |rows| - i)] == rows[i..end];
    assert rows[i..][Min(ChunkSize, |rows| - i)..] == rows[end..];
  }

  /** The loop of `for (i = 0; i < rows.length; i += CHUNK_SIZE)`, shared by
      the append and the replace branch: the chunk is `rows.slice(i, i +
      CHUNK_SIZE)`, and progress reports min(i + CHUNK_SIZE, total).
      `write` is the branch's request: `values.append` at the start cell,
      or `values.update` of the chunk's own range. */
  method WriteChunks(api: Service, write: Writer, rows: Grid,
                     listening: bool, before: seq<ProgressEvent>)
    returns (failure: Option<Error>, events: seq<ProgressEvent>)
    modifies api
    ensures var w := WriteRun(api.failures, old(api.log), write, rows, 0, |rows|);
      api.log == w.log && failure == w.failure && events == before + Heard(listening, w.events)
  {
    ghost var whole := WriteRun(api.failures, api.log, write, rows, 0, |rows|);
    ghost var emitted: seq<ProgressEvent> := [];
    var totalRows := |rows|;
    var i := 0;
    events := before;
    while i < totalRows
      invariant 0 <= i
      invariant var done := Min(i, totalRows);
        var rest := WriteRun(api.failures, api.log, write, rows[done..], done, totalRows);
        rest.log == whole.log && rest.failure == whole.failure && whole.events == emitted + rest.events
      invariant events == before + Heard(listening, emitted)
      decreases totalRows - i
    {
      var end := Min(i + ChunkSize, totalRows);
      var chunk := rows[i..end];
      WriteRunStep(api.failures, api.log, write, rows, i);
      var request := write(chunk, i);
      var sent := api.Send(request);
      if sent.Some? {
        return sent, events;
      }
      var e := Event(Uploading, Min(i + ChunkSize, totalRows), totalRows);
      emitted := emitted + [e];
      events := Emit(listening, events, e);
      i := i + ChunkSize;
    }
    failure := None;
  }

  // ---------------------------------------------------------------------
  // The whole upload

  /** The wrapping of a failed write. */
  function UploadFailure(sheet: string, e: Error): Error {
    Wrap("Failed to upload data to sheet \"" + sheet + "\".", e)
  }

  /** `uploadData(sheets, spreadsheetId, options)` against a service that
      reports `metadata` and fails at the positions of `failures`, starting
      from the requests in `log`. */
  function UploadRun(metadata: seq<SheetProperties>, failures: map<nat, Error>, log: seq<Request>,
                     spreadsheetId: string, options: UploadOptions, resolved: Result<Grid, Error>): Run
  {
    var parsing := [Event(Parsing, 0, 0)];
    match resolved
    case Err(e) => Run(log, parsing, Some(e))
    case Ok(rows) =>
      if rows == [] then Run(log, parsing + [Event(Complete, 0, 0)], None)
      else
        var r := Prepare(metadata, failures, log, spreadsheetId, options, |rows|);
        if r.failure.Some? then Run(r.log, parsing + r.events, r.failure)
        else
          var w := Transfer(failures, r.log, spreadsheetId, options, Serialize(rows));
          Run(w.log, parsing + r.events + w.events, w.failure)
  }

  /** The clearing phase: in replace mode a 'clearing' event and the clear
      of the sheet, in any other mode nothing. */
  function Prepare(metadata: seq<SheetProperties>, failures: map<nat, Error>, log: seq<Request>,
                   spreadsheetId: string, options: UploadOptions, total: nat): Run
  {
    if options.mode.GetOr("replace") == "replace" then
      var t := Clear.ClearTrace(metadata, failures, log, spreadsheetId, options.sheet);
      Run(t.log, [Event(Clearing, 0, total)], t.failure)
    else Run(log, [], None)
  }

  /** The writing phase over the serialized rows: 'uploading' at 0, the
      chunks, and 'complete' or the wrapped failure. */
  function Transfer(failures: map<nat, Error>, log: seq<Request>, spreadsheetId: string,
                    options: UploadOptions, serialized: Grid): Run
  {
    var w := WriteRun(failures, log, WriterFor(spreadsheetId, TargetFor(options, serialized)),
                      PayloadFor(options, serialized), 0, |serialized|);
    TransferOf(options.sheet, |serialized|, w)
  }

  /** Append mode sends to `sheet!startCell`; every other mode writes
      consecutive ranges as wide as the widest row. */
  function TargetFor(options: UploadOptions, serialized: Grid): Target {
    if options.mode.GetOr("replace") == "append" then AppendAt(options.sheet + "!" + options.startCell.GetOr("A1"))
    else WriteRange(options.sheet, MaxWidth(serialized))
  }

  /** Append mode sends the rows as they are; every other mode pads them to
      the widest row. */
  function PayloadFor(options: UploadOptions, serialized: Grid): Grid {
    if options.mode.GetOr("replace") == "append" then serialized
    else PadAll(serialized, MaxWidth(serialized))
  }

  /** `Transfer` once its chunk loop ran as `w`. */
  function TransferOf(sheet: string, total: nat, w: Run): Run {
    var events := [Event(Uploading, 0, total)] + w.events;
    match w.failure
    case Some(e) => Run(w.log, events, Some(UploadFailure(sheet, e)))
    case None => Run(w.log, events + [Event(Complete, total, total)], None)
  }

  lemma {:induction false} HeardAppend(listening: bool, a: seq<ProgressEvent>, b: seq<ProgressEvent>)
    ensures Heard(listening, a + b) == Heard(listening, a) + Heard(listening, b)
  {
  }

  /** The rows `uploadData` resolves its input to, with headers unless
      the options say otherwise. */
  function Resolve(options: UploadOptions, files: Resolver.Files): Result<Grid, Error> {
    Resolver.ResolveData(options.data, options.includeHeaders.GetOr(true), files)
  }

  /** `uploadData`; `failure` is None when it returns, and `events` is what
      the progress callback receives. */
  method UploadData(api: Service, spreadsheetId: string, options: UploadOptions, listening: bool,
                    files: Resolver.Files)
    returns (failure: Option<Error>, events: seq<ProgressEvent>)
    modifies api
    ensures var run := UploadRun(api.metadata, api.failures, old(api.log), spreadsheetId, options, Resolve(options, files));
      api.log == run.log && failure == run.failure && events == Heard(listening, run.events)
  {
    var sheet := options.sheet;
    var mode := options.mode.GetOr("replace");
    var startCell := options.startCell.GetOr("A1");
    var includeHeaders := options.includeHeaders.GetOr(true);

    events := Emit(listening, [], Event(Parsing, 0, 0));
    var resolved := Resolver.ResolveData(options.data, includeHeaders, files);
    if resolved.Err? {
      return Some(resolved.error), events;
    }
    var rows := resolved.value;
    if |rows| == 0 {
      events := Emit(listening, events, Event(Complete, 0, 0));
      return None, events;
    }

    var totalRows := |rows|;
    var serialized := Serialize(rows);
    ghost var prepared := Prepare(api.metadata, api.failures, api.log, spreadsheetId, options, totalRows);
    if mode == "replace" {
      events := Emit(listening, events, Event(Clearing, 0, totalRows));
      var clearFailure := Clear.ClearSheet(api, spreadsheetId, sheet);
      if clearFailure.Some? {
        return clearFailure, events;
      }
    }
    assert api.log == prepared.log && prepared.failure.None?;
    assert events == Heard(listening, [Event(Parsing, 0, 0)] + prepared.events);

    ghost var transfer := Transfer(api.failures, api.log, spreadsheetId, options, serialized);
    ghost var before := events;
    failure, events := TransferRows(api, spreadsheetId, options, serialized, listening, events);
    HeardAppend(listening, [Event(Parsing, 0, 0)] + prepared.events, transfer.events);
  }

  /** The part of `uploadData` inside its try block: the chunk loop of the
      mode, then 'complete'; a failed write is rethrown wrapped. */
  method TransferRows(api: Service, spreadsheetId: string, options: UploadOptions, serialized: Grid,
                      listening: bool, before: seq<ProgressEvent>)
    returns (failure: Option<Error>, events: seq<ProgressEvent>)
    modifies api
    ensures var t := Transfer(api.failures, old(api.log), spreadsheetId, options, serialized);
      api.log == t.log && failure == t.failure && events == before + Heard(listening, t.events)
  {
    var totalRows := |serialized|;
    ghost var w := WriteRun(api.failures, api.log, WriterFor(spreadsheetId, TargetFor(options, serialized)),
                            PayloadFor(options, serialized), 0, totalRows);
    events := Emit(listening, before, Event(Uploading, 0, totalRows));
    ghost var afterStart := events;
    var writeFailure;
    writeFailure, events := WriteRows(api, spreadsheetId, options, serialized, listening, events);
    assert events == afterStart + Heard(listening, w.events);
    if writeFailure.Some? {
      failure := Some(UploadFailure(options.sheet, writeFailure.value));
    } else {
      events := Emit(listening, events, Event(Complete, totalRows, totalRows));
      failure := None;
    }
  }

  /** The two branches of the try block: the append loop, or the padding
      and the update loop. */
  method WriteRows(api: Service, spreadsheetId: string, options: UploadOptions, serialized: Grid,
                   listening: bool, before: seq<ProgressEvent>)
    returns (failure: Option<Error>, events: seq<ProgressEvent>)
    modifies api
    ensures var w := WriteRun(api.failures, old(api.log), WriterFor(spreadsheetId, TargetFor(options, serialized)),
                              PayloadFor(options, serialized), 0, |serialized|);
      api.log == w.log && failure == w.failure && events == before + Heard(listening, w.events)
  {
    var sheet := options.sheet;
    if options.mode.GetOr("replace") == "append" {
      var startCell := options.startCell.GetOr("A1");
      failure, events := WriteChunks(api, WriterFor(spreadsheetId, AppendAt(sheet + "!" + startCell)), serialized, listening, before);
    } else {
      var maxCols := MaxWidth(serialized);
      var padded := PadRows(serialized, maxCols);
      failure, events := WriteChunks(api, WriterFor(spreadsheetId, WriteRange(sheet, maxCols)), padded, listening, before);
    }
  }

  // ---------------------------------------------------------------------
  // What the chunk loop sends

  /** `Math.ceil(n / CHUNK_SIZE)`: the number of chunks of n rows. */
  function ChunkCount(n: nat): nat {
    (n + ChunkSize - 1) / ChunkSize
  }

  /** The k-th chunk: `rows.slice(k * CHUNK_SIZE, (k + 1) * CHUNK_SIZE)`. */
  function Chunk(rows: Grid, k: nat): Grid
    requires k < ChunkCount(|rows|)
  {
    rows[k * ChunkSize .. Min((k + 1) * ChunkSize, |rows|)]
  }

  /** The first m chunks, in order, joined. */
  function Joined(rows: Grid, m: nat): Grid
    requires m <= ChunkCount(|rows|)
  {
    if m == 0 then [] else Joined(rows, m - 1) + Chunk(rows, m - 1)
  }

  /** The chunks are the rows: joined in order they give the rows back, and
      each holds between 1 and CHUNK_SIZE rows. */
  lemma {:induction false} ChunksCover(rows: Grid, m: nat)
    requires m <= ChunkCount(|rows|)
    ensures Joined(rows, m) == rows[..Min(m * ChunkSize, |rows|)]
    ensures forall k :: 0 <= k < m ==> 1 <= |Chunk(rows, k)| <= ChunkSize
  {
    if m > 0 {
      ChunksCover(rows, m - 1);
      var a := Min((m - 1) * ChunkSize, |rows|);
      assert a == (m - 1) * ChunkSize;
      assert rows[..a] + rows[a..Min(m * ChunkSize, |rows|)] == rows[..Min(m * ChunkSize, |rows|)];
    }
  }

  /** All the chunks together are exactly the rows. */
  lemma {:induction false} AllChunksAreTheRows(rows: Grid)
    ensures Joined(rows, ChunkCount(|rows|)) == rows
  {
    ChunksCover(rows, ChunkCount(|rows|));
    assert rows[..|rows|] == rows;
  }

  /** 25,000 rows go out as chunks of 10,000, 10,000 and 5,000. */
  lemma {:induction false} ChunkSizesExample(rows: Grid)
    requires |rows| == 25000
    ensures ChunkCount(|rows|) == 3
    ensures |Chunk(rows, 0)| == 10000 && |Chunk(rows, 1)| == 10000 && |Chunk(rows, 2)| == 5000
  {
  }

  /** Dropping the first chunk shifts the chunks by one. */
  lemma {:induction false} ChunkShift(rows: Grid, k: nat)
    requires |rows| > ChunkSize && k + 1 < ChunkCount(|rows|)
    ensures ChunkCount(|rows[ChunkSize..]|) == ChunkCount(|rows|) - 1
    ensures Chunk(rows[ChunkSize..], k) == Chunk(rows, k + 1)
  {
  }

  /** The requests of `sent` from position `from` on are chunks 0, 1, ...
      of `rows` in order, no more than there are chunks, each sent by
      `write` at its own row offset counted from `offset`. */
  predicate SendsChunks(sent: seq<Request>, from: nat, write: Writer, rows: Grid, offset: nat) {
    |sent| <= from + ChunkCount(|rows|)
    && forall k :: 0 <= k < |sent| - from ==> sent[from + k] == write(Chunk(rows, k), offset + k * ChunkSize)
  }

  lemma {:induction false} SentChunk(sent: seq<Request>, from: nat, write: Writer, rows: Grid, offset: nat, k: nat)
    requires SendsChunks(sent, from, write, rows, offset) && from + k < |sent|
    ensures k < ChunkCount(|rows|) && sent[from + k] == write(Chunk(rows, k), offset + k * ChunkSize)
  {
  }

  /** The first chunk sent, followed by the chunks of the rows after it,
      are the chunks of all the rows. */
  lemma {:induction false} ChunksAfterFirst(sent: seq<Request>, from: nat, write: Writer, rows: Grid, offset: nat)
    requires rows != [] && |sent| > from
    requires var n := Min(ChunkSize, |rows|);
      sent[from] == write(rows[..n], offset) && SendsChunks(sent, from + 1, write, rows[n..], offset + n)
    ensures SendsChunks(sent, from, write, rows, offset)
  {
    var n := Min(ChunkSize, |rows|);
    assert |sent| <= from + ChunkCount(|rows|) by {
      if |rows| > ChunkSize {
        ChunkShift(rows, 0);
      }
    }
    forall k | 0 <= k < |sent| - from
      ensures sent[from + k] == write(Chunk(rows, k), offset + k * ChunkSize)
    {
      if k == 0 {
        assert Chunk(rows, 0) == rows[..n];
      } else {
        SentChunk(sent, from + 1, write, rows[n..], offset + n, k - 1);
        assert sent[from + k] == sent[from + 1 + (k - 1)];
        assert n == ChunkSize;
        ChunkShift(rows, k - 1);
      }
    }
  }

  /** The loop sends the chunks in order, the k-th to the k-th request,
      and stops at the first failing request or after the last chunk. */
  lemma {:induction false} WriteRunRequests(failures: map<nat, Error>, log: seq<Request>, write: Writer,
                                            rows: Grid, offset: nat, total: nat)
    ensures var w := WriteRun(failures, log, write, rows, offset, total);
      |log| <= |w.log| && w.log[..|log|] == log && SendsChunks(w.log, |log|, write, rows, offset)
    decreases |rows|
  {
    if rows != [] {
      var n := Min(ChunkSize, |rows|);
      var request := write(rows[..n], offset);
      var w := WriteRun(failures, log, write, rows, offset, total);
      if |log| !in failures {
        WriteRunRequests(failures, log + [request], write, rows[n..], offset + n, total);
        var rest := WriteRun(failures, log + [request], write, rows[n..], offset + n, total);
        assert w.log == rest.log;
        assert w.log[|log|] == (log + [request])[|log|];
      }
      ChunksAfterFirst(w.log, |log|, write, rows, offset);
    }
  }

  /** Every request before the last one succeeded; the loop fails exactly
      when the last request failed, and otherwise sent every chunk. */
  lemma {:induction false} WriteRunOutcome(failures: map<nat, Error>, log: seq<Request>, write: Writer,
                                           rows: Grid, offset: nat, total: nat)
    ensures var w := WriteRun(failures, log, write, rows, offset, total);
      (forall j :: |log| <= j < |w.log| - 1 ==> j !in failures)
      && (w.failure.Some? ==> |w.log| > |log| && w.failure == FailureAt(failures, |w.log| - 1))
      && (w.failure.None? ==> |w.log| == |log| + ChunkCount(|rows|)
                              && (|w.log| > |log| ==> |w.log| - 1 !in failures))
    decreases |rows|
  {
    WriteRunRequests(failures, log, write, rows, offset, total);
    if rows != [] {
      var n := Min(ChunkSize, |rows|);
      var request := write(rows[..n], offset);
      if |log| !in failures {
        WriteRunOutcome(failures, log + [request], write, rows[n..], offset + n, total);
      }
    }
  }

  /** After each sent chunk the loop reports min(offset + (k + 1) * CHUNK_SIZE,
      total) rows processed; a failed request reports nothing. */
  lemma {:induction false} WriteRunEvents(failures: map<nat, Error>, log: seq<Request>, write: Writer,
                                          rows: Grid, offset: nat, total: nat)
    ensures var w := WriteRun(failures, log, write, rows, offset, total);
      |w.events| == (if w.failure.Some? then |w.log| - |log| - 1 else |w.log| - |log|)
      && ReportsChunks(w.events, offset, total)
    decreases |rows|
  {
    if rows != [] {
      var n := Min(ChunkSize, |rows|);
      var request := write(rows[..n], offset);
      if |log| !in failures {
        WriteRunEvents(failures, log + [request], write, rows[n..], offset + n, total);
        var w := WriteRun(failures, log, write, rows, offset, total);
        var rest := WriteRun(failures, log + [request], write, rows[n..], offset + n, total);
        if rest.events != [] {
          assert rows[n..] != [];
        }
        assert ReportsChunks(rest.events, offset + ChunkSize, total);
        ReportsAfterFirst(rest.events, offset, total);
      }
    }
  }

  /** Progress after each of the chunks sent from row `offset` on: the k-th
      reports min(offset + (k + 1) * CHUNK_SIZE, total) rows processed. */
  predicate ReportsChunks(events: seq<ProgressEvent>, offset: nat, total: nat) {
    forall k :: 0 <= k < |events| ==> events[k] == Event(Uploading, Min(offset + (k + 1) * ChunkSize, total), total)
  }

  lemma {:induction false} ReportsAfterFirst(rest: seq<ProgressEvent>, offset: nat, total: nat)
    requires ReportsChunks(rest, offset + ChunkSize, total)
    ensures ReportsChunks([Event(Uploading, Min(offset + ChunkSize, total), total)] + rest, offset, total)
  {
    var events := [Event(Uploading, Min(offset + ChunkSize, total), total)] + rest;
    forall k | 0 < k < |events|
      ensures events[k] == Event(Uploading, Min(offset + (k + 1) * ChunkSize, total), total)
    {
      assert events[k] == rest[k - 1];
    }
  }

  // ---------------------------------------------------------------------
  // What an upload does

  /** Before any request: a failed resolution is rethrown after 'parsing',
      and an empty grid reports 'parsing' and 'complete', both at 100%,
      without clearing or writing anything. */
  lemma {:induction false} UploadWithoutRows(metadata: seq<SheetProperties>, failures: map<nat, Error>, log: seq<Request>,
                          spreadsheetId: string, options: UploadOptions, resolved: Result<Grid, Error>)
    requires resolved != Ok([]) ==> resolved.Err?
    ensures var run := UploadRun(metadata, failures, log, spreadsheetId, options, resolved);
      run.log == log
      && match resolved
         case Err(e) => run.events == [Event(Parsing, 0, 0)] && run.failure == Some(e)
         case Ok(_) => run.events == [ProgressEvent(Parsing, 100, 0, 0), ProgressEvent(Complete, 100, 0, 0)]
                       && run.failure == None
  {
  }

  /** The rows an upload writes: serialized, and in any mode but append
      padded to the widest row. */
  function Payload(options: UploadOptions, rows: Grid): Grid {
    PayloadFor(options, Serialize(rows))
  }

  /** The writing phase sends chunk k of the payload as the k-th request,
      in order, and no more requests than there are chunks. */
  lemma {:induction false} TransferRequests(failures: map<nat, Error>, log: seq<Request>, spreadsheetId: string,
                         options: UploadOptions, serialized: Grid)
    ensures var t := Transfer(failures, log, spreadsheetId, options, serialized);
      var payload := PayloadFor(options, serialized);
      |payload| == |serialized|
      && |log| <= |t.log| <= |log| + ChunkCount(|serialized|) && t.log[..|log|] == log
      && SendsChunks(t.log, |log|, WriterFor(spreadsheetId, TargetFor(options, serialized)), payload, 0)
  {
    WriteRunRequests(failures, log, WriterFor(spreadsheetId, TargetFor(options, serialized)),
                     PayloadFor(options, serialized), 0, |serialized|);
  }

  /** Replace mode reads the metadata and clears the sheet before anything
      is written, then writes chunk k of the padded rows to rows
      k * 10000 + 1 .. k * 10000 + |chunk|, columns 1 .. widest row. */
  lemma {:induction false} ReplaceClearsThenWrites(metadata: seq<SheetProperties>, failures: map<nat, Error>,
                                                   log: seq<Request>, spreadsheetId: string, options: UploadOptions,
                                                   rows: Grid)
    requires rows != [] && options.mode.GetOr("replace") == "replace"
    ensures var run := UploadRun(metadata, failures, log, spreadsheetId, options, Ok(rows));
      var n := |log|;
      |run.log| > n && run.log[..n] == log && run.log[n] == GetSpreadsheet(spreadsheetId)
      && (|run.log| > n + 1 ==> run.log[n + 1] == ClearValues(spreadsheetId, Clear.TargetId(metadata, options.sheet).value))
    ensures var run := UploadRun(metadata, failures, log, spreadsheetId, options, Ok(rows));
      var n := |log|;
      var payload := Payload(options, rows);
      var target := WriteRange(options.sheet, MaxWidth(Serialize(rows)));
      |payload| == |rows| && SendsChunks(run.log, n + 2, WriterFor(spreadsheetId, target), payload, 0)
  {
    UploadRunPhases(metadata, failures, log, spreadsheetId, options, rows);
    var t := Clear.ClearTrace(metadata, failures, log, spreadsheetId, options.sheet);
    assert Prepare(metadata, failures, log, spreadsheetId, options, |rows|) == Run(t.log, [Event(Clearing, 0, |rows|)], t.failure);
    SerializeSpec(rows);
    if t.failure.Some? {
      FailedClearLog(metadata, failures, log, spreadsheetId, options.sheet);
    } else {
      ReplaceWrites(metadata, failures, log, spreadsheetId, options, rows);
      var sent := Transfer(failures, t.log, spreadsheetId, options, Serialize(rows)).log;
      assert UploadRun(metadata, failures, log, spreadsheetId, options, Ok(rows)).log == sent;
    }
  }

  /** A clear that failed sent the metadata read, and the clear itself only
      when the sheet was found. */
  lemma {:induction false} FailedClearLog(metadata: seq<SheetProperties>, failures: map<nat, Error>, log: seq<Request>,
                                          spreadsheetId: string, sheet: string)
    ensures var t := Clear.ClearTrace(metadata, failures, log, spreadsheetId, sheet);
      t.log == log + [GetSpreadsheet(spreadsheetId)]
      || t.log == log + [GetSpreadsheet(spreadsheetId), ClearValues(spreadsheetId, Clear.TargetId(metadata, sheet).value)]
  {
  }

  /** Once the clear went through, the chunks are written after it. */
  lemma {:induction false} ReplaceWrites(metadata: seq<SheetProperties>, failures: map<nat, Error>, log: seq<Request>,
                                         spreadsheetId: string, options: UploadOptions, rows: Grid)
    requires rows != [] && options.mode.GetOr("replace") == "replace"
    requires Clear.ClearTrace(metadata, failures, log, spreadsheetId, options.sheet).failure.None?
    ensures var cleared := Clear.ClearTrace(metadata, failures, log, spreadsheetId, options.sheet).log;
      var sent := Transfer(failures, cleared, spreadsheetId, options, Serialize(rows)).log;
      var n := |log|;
      |sent| > n + 1 && sent[..n] == log && sent[n] == GetSpreadsheet(spreadsheetId)
      && sent[n + 1] == ClearValues(spreadsheetId, Clear.TargetId(metadata, options.sheet).value)
    ensures var cleared := Clear.ClearTrace(metadata, failures, log, spreadsheetId, options.sheet).log;
      var sent := Transfer(failures, cleared, spreadsheetId, options, Serialize(rows)).log;
      SendsChunks(sent, |log| + 2, WriterFor(spreadsheetId, WriteRange(options.sheet, MaxWidth(Serialize(rows)))),
                  Payload(options, rows), 0)
  {
    var cleared := Clear.ClearTrace(metadata, failures, log, spreadsheetId, options.sheet).log;
    var serialized := Serialize(rows);
    SerializeSpec(rows);
    ClearedLog(metadata, failures, log, spreadsheetId, options.sheet);
    TransferRequests(failures, cleared, spreadsheetId, options, serialized);
    assert TargetFor(options, serialized) == WriteRange(options.sheet, MaxWidth(serialized));
    var sent := Transfer(failures, cleared, spreadsheetId, options, serialized).log;
    PrefixOfPrefix(log, cleared, sent);
  }

  /** A clear that went through sent the metadata read and the clear. */
  lemma {:induction false} ClearedLog(metadata: seq<SheetProperties>, failures: map<nat, Error>, log: seq<Request>,
                   spreadsheetId: string, sheet: string)
    requires Clear.ClearTrace(metadata, failures, log, spreadsheetId, sheet).failure.None?
    ensures Clear.ClearTrace(metadata, failures, log, spreadsheetId, sheet).log
         == log + [GetSpreadsheet(spreadsheetId), ClearValues(spreadsheetId, Clear.TargetId(metadata, sheet).value)]
  {
  }

  lemma {:induction false} PrefixOfPrefix(a: seq<Request>, b: seq<Request>, c: seq<Request>)
    requires |a| <= |b| <= |c| && b[..|a|] == a && c[..|b|] == b
    ensures c[..|a|] == a
    ensures forall i :: |a| <= i < |b| ==> c[i] == b[i]
  {
    assert c[..|a|] == c[..|b|][..|a|];
  }

  /** Append mode never reads metadata or clears: every request appends
      chunk k of the serialized rows at `sheet!startCell`, the start cell
      defaulting to A1 and the sheet name left unquoted. */
  lemma {:induction false} AppendOnlyAppends(metadata: seq<SheetProperties>, failures: map<nat, Error>, log: seq<Request>,
                          spreadsheetId: string, options: UploadOptions, rows: Grid)
    requires rows != [] && options.mode == Some("append")
    ensures var run := UploadRun(metadata, failures, log, spreadsheetId, options, Ok(rows));
      var n := |log|;
      n <= |run.log| <= n + ChunkCount(|rows|) && run.log[..n] == log
      && forall k :: 0 <= k < |run.log| - n ==>
           k < ChunkCount(|rows|)
           && run.log[n + k] == AppendValues(spreadsheetId, options.sheet + "!" + options.startCell.GetOr("A1"),
                                             Chunk(Serialize(rows), k))
  {
    SerializeSpec(rows);
    TransferRequests(failures, log, spreadsheetId, options, Serialize(rows));
  }

  /** A failed write is rethrown as an UploaderError naming the sheet, with
      the service's error as its cause when that is an Error. */
  lemma {:induction false} WriteFailureIsWrapped(metadata: seq<SheetProperties>, failures: map<nat, Error>, log: seq<Request>,
                              spreadsheetId: string, options: UploadOptions, rows: Grid)
    requires rows != []
    requires Prepare(metadata, failures, log, spreadsheetId, options, |rows|).failure.None?
    ensures var run := UploadRun(metadata, failures, log, spreadsheetId, options, Ok(rows));
      run.failure.Some? ==>
        |run.log| > 0 && |run.log| - 1 in failures
        && run.failure.value.UploaderError?
        && run.failure.value.message == "Failed to upload data to sheet \"" + options.sheet + "\"."
        && (failures[|run.log| - 1].IsErrorInstance() ==> run.failure.value.cause == Some(failures[|run.log| - 1]))
  {
    var r := Prepare(metadata, failures, log, spreadsheetId, options, |rows|);
    var serialized := Serialize(rows);
    WriteRunOutcome(failures, r.log, WriterFor(spreadsheetId, TargetFor(options, serialized)),
                    PayloadFor(options, serialized), 0, |serialized|);
  }

  /** A failed clear is rethrown as the clear raised it, and nothing is
      written. */
  lemma {:induction false} ClearFailureStopsUpload(metadata: seq<SheetProperties>, failures: map<nat, Error>, log: seq<Request>,
                                spreadsheetId: string, options: UploadOptions, rows: Grid)
    requires rows != [] && options.mode.GetOr("replace") == "replace"
    requires Clear.ClearTrace(metadata, failures, log, spreadsheetId, options.sheet).failure.Some?
    ensures var run := UploadRun(metadata, failures, log, spreadsheetId, options, Ok(rows));
      var t := Clear.ClearTrace(metadata, failures, log, spreadsheetId, options.sheet);
      run.log == t.log && run.failure == t.failure
      && run.events == [Event(Parsing, 0, 0), Event(Clearing, 0, |rows|)]
  {
  }

  /** Events of one upload after 'parsing': all about `total` rows, with
      the percentage of their processed rows, which never decrease. */
  predicate Steady(events: seq<ProgressEvent>, total: nat) {
    (forall i :: 0 <= i < |events| ==>
       events[i].totalRows == total && events[i].processedRows <= total
       && events[i].percent == Percent(events[i].processedRows, total))
    && forall i, j :: 0 <= i <= j < |events| ==> events[i].processedRows <= events[j].processedRows
  }

  /** The writing phase of a successful upload: 'uploading' at 0, one
      'uploading' per chunk, the last of them at every row, and
      'complete'. */
  lemma {:induction false} WritingEvents(failures: map<nat, Error>, log: seq<Request>, spreadsheetId: string,
                                         options: UploadOptions, serialized: Grid)
    requires serialized != []
    requires Transfer(failures, log, spreadsheetId, options, serialized).failure.None?
    ensures var events := Transfer(failures, log, spreadsheetId, options, serialized).events;
      var total := |serialized|;
      |events| == ChunkCount(total) + 2
      && events[0] == Event(Uploading, 0, total)
      && (forall i :: 0 < i < |events| - 1 ==> events[i].phase == Uploading)
      && events[|events| - 2] == Event(Uploading, total, total)
      && events[|events| - 1] == Event(Complete, total, total)
      && Steady(events, total)
  {
    var total := |serialized|;
    var write, payload := WriterFor(spreadsheetId, TargetFor(options, serialized)), PayloadFor(options, serialized);
    var w := WriteRun(failures, log, write, payload, 0, total);
    WriteRunEvents(failures, log, write, payload, 0, total);
    WriteRunOutcome(failures, log, write, payload, 0, total);
    var start, done := [Event(Uploading, 0, total)], [Event(Complete, total, total)];
    var events := start + w.events + done;
    assert Transfer(failures, log, spreadsheetId, options, serialized).events == events;
    var m := ChunkCount(total);
    assert |w.events| == m;
    ChunkCountBounds(total);
    assert w.events[m - 1] == Event(Uploading, total, total);
    forall i | 0 < i < |events| - 1
      ensures events[i].phase == Uploading
    {
      assert events[i] == w.events[i - 1];
    }
    ReportsSteady(w.events, 0, total);
    SteadyAppend(start, w.events, total);
    SteadyAppend(start + w.events, done, total);
  }

  /** There are just enough chunks for the rows. */
  lemma {:induction false} ChunkCountBounds(n: nat)
    requires n > 0
    ensures ChunkCount(n) > 0 && (ChunkCount(n) - 1) * ChunkSize < n <= ChunkCount(n) * ChunkSize
  {
  }

  /** The chunk loop's progress is steady. */
  lemma {:induction false} ReportsSteady(events: seq<ProgressEvent>, offset: nat, total: nat)
    requires ReportsChunks(events, offset, total)
    ensures Steady(events, total)
  {
    forall i, j | 0 <= i <= j < |events|
      ensures events[i].processedRows <= events[j].processedRows
    {
      assert (j + 1) * ChunkSize - (i + 1) * ChunkSize == (j - i) * ChunkSize;
    }
  }

  /** Steady events followed by steady events that start no lower stay
      steady. */
  lemma {:induction false} SteadyAppend(a: seq<ProgressEvent>, b: seq<ProgressEvent>, total: nat)
    requires Steady(a, total) && Steady(b, total)
    requires |a| > 0 && |b| > 0 ==> a[|a| - 1].processedRows <= b[0].processedRows
    ensures Steady(a + b, total)
  {
    var c := a + b;
    forall i, j | 0 <= i <= j < |c|
      ensures c[i].processedRows <= c[j].processedRows
    {
      if j < |a| {
        assert c[i] == a[i] && c[j] == a[j];
      } else if i >= |a| {
        assert c[i] == b[i - |a|] && c[j] == b[j - |a|];
      } else {
        assert c[i] == a[i] && c[j] == b[j - |a|];
        assert a[i].processedRows <= a[|a| - 1].processedRows;
        assert b[0].processedRows <= b[j - |a|].processedRows;
      }
    }
  }

  /** What the progress callback of a successful upload of `total` rows
      receives: 'parsing' (at 100%, there being no rows yet), 'clearing'
      in replace mode, 'uploading' at 0, one 'uploading' per chunk, the
      last at every row, and 'complete'; after 'parsing' the processed rows
      and the percentage never decrease and stay within the total and
      0..100. */
  predicate SuccessfulProgress(events: seq<ProgressEvent>, total: nat, replace: bool) {
    |events| == (if replace then 4 else 3) + ChunkCount(total)
    && events[0] == ProgressEvent(Parsing, 100, 0, 0)
    && (replace ==> events[1] == ProgressEvent(Clearing, 0, total, 0))
    && events[|events| - 2] == ProgressEvent(Uploading, 100, total, total)
    && events[|events| - 1] == ProgressEvent(Complete, 100, total, total)
    && (forall i :: 1 <= i < |events| ==>
          events[i].totalRows == total && events[i].processedRows <= total && 0 <= events[i].percent <= 100)
    && (forall i, j :: 1 <= i <= j < |events| ==>
          events[i].processedRows <= events[j].processedRows && events[i].percent <= events[j].percent)
  }

  /** The events of a successful upload with rows to write. */
  lemma {:induction false} UploadEventsOnSuccess(metadata: seq<SheetProperties>, failures: map<nat, Error>, log: seq<Request>,
                              spreadsheetId: string, options: UploadOptions, rows: Grid)
    requires rows != []
    requires UploadRun(metadata, failures, log, spreadsheetId, options, Ok(rows)).failure.None?
    ensures SuccessfulProgress(UploadRun(metadata, failures, log, spreadsheetId, options, Ok(rows)).events,
                               |rows|, options.mode.GetOr("replace") == "replace")
  {
    var run := UploadRun(metadata, failures, log, spreadsheetId, options, Ok(rows));
    var r := Prepare(metadata, failures, log, spreadsheetId, options, |rows|);
    var t := Transfer(failures, r.log, spreadsheetId, options, Serialize(rows));
    UploadRunPhases(metadata, failures, log, spreadsheetId, options, rows);
    assert r.failure.None? && t.failure.None?;
    assert run.events == [Event(Parsing, 0, 0)] + r.events + t.events;
    PhasesOnSuccess(metadata, failures, log, spreadsheetId, options, rows);
  }

  /** The events of a successful upload, phase by phase. */
  lemma {:induction false} PhasesOnSuccess(metadata: seq<SheetProperties>, failures: map<nat, Error>, log: seq<Request>,
                        spreadsheetId: string, options: UploadOptions, rows: Grid)
    requires rows != []
    requires Prepare(metadata, failures, log, spreadsheetId, options, |rows|).failure.None?
    requires Transfer(failures, Prepare(metadata, failures, log, spreadsheetId, options, |rows|).log,
                      spreadsheetId, options, Serialize(rows)).failure.None?
    ensures var r := Prepare(metadata, failures, log, spreadsheetId, options, |rows|);
      var t := Transfer(failures, r.log, spreadsheetId, options, Serialize(rows));
      SuccessfulProgress([Event(Parsing, 0, 0)] + r.events + t.events, |rows|, options.mode.GetOr("replace") == "replace")
  {
    var total := |rows|;
    var serialized := Serialize(rows);
    SerializeSpec(rows);
    var r := Prepare(metadata, failures, log, spreadsheetId, options, total);
    var t := Transfer(failures, r.log, spreadsheetId, options, serialized);
    WritingEvents(failures, r.log, spreadsheetId, options, serialized);
    var replace := options.mode.GetOr("replace") == "replace";
    assert r.events == if replace then [Event(Clearing, 0, total)] else [];
    WholeEvents(r.events, t.events, total, replace);
  }

  /** 'parsing', the clearing phase and a successful writing phase. */
  lemma {:induction false} WholeEvents(clearing: seq<ProgressEvent>, writing: seq<ProgressEvent>, total: nat, replace: bool)
    requires total > 0
    requires clearing == if replace then [Event(Clearing, 0, total)] else []
    requires |writing| == ChunkCount(total) + 2 && Steady(writing, total)
    requires writing[|writing| - 2] == Event(Uploading, total, total)
    requires writing[|writing| - 1] == Event(Complete, total, total)
    ensures SuccessfulProgress([Event(Parsing, 0, 0)] + clearing + writing, total, replace)
  {
    var tail := clearing + writing;
    assert Steady(clearing, total);
    SteadyAppend(clearing, writing, total);
    assert tail[|tail| - 2] == writing[|writing| - 2] && tail[|tail| - 1] == writing[|writing| - 1];
    assert replace ==> tail[0] == Event(Clearing, 0, total);
    PercentEnds(total);
    SteadyPercents(tail, total);
    ParsingFirst(tail, total, replace);
    assert [Event(Parsing, 0, 0)] + clearing + writing == [Event(Parsing, 0, 0)] + tail;
  }

  /** 'parsing' followed by the steady events of the later phases. */
  lemma {:induction false} ParsingFirst(tail: seq<ProgressEvent>, total: nat, replace: bool)
    requires |tail| == (if replace then 3 else 2) + ChunkCount(total)
    requires replace ==> tail[0] == ProgressEvent(Clearing, 0, total, 0)
    requires tail[|tail| - 2] == ProgressEvent(Uploading, 100, total, total)
    requires tail[|tail| - 1] == ProgressEvent(Complete, 100, total, total)
    requires forall i :: 0 <= i < |tail| ==>
      tail[i].totalRows == total && tail[i].processedRows <= total && 0 <= tail[i].percent <= 100
    requires forall i, j :: 0 <= i <= j < |tail| ==>
      tail[i].processedRows <= tail[j].processedRows && tail[i].percent <= tail[j].percent
    ensures SuccessfulProgress([Event(Parsing, 0, 0)] + tail, total, replace)
  {
    var events := [Event(Parsing, 0, 0)] + tail;
    forall i | 1 <= i < |events|
      ensures events[i] == tail[i - 1]
    {
    }
  }

  /** An upload with rows to write: 'parsing', then the clearing phase,
      then, when that went through, the writing phase. */
  lemma {:induction false} UploadRunPhases(metadata: seq<SheetProperties>, failures: map<nat, Error>, log: seq<Request>,
                        spreadsheetId: string, options: UploadOptions, rows: Grid)
    requires rows != []
    ensures var r := Prepare(metadata, failures, log, spreadsheetId, options, |rows|);
      var t := Transfer(failures, r.log, spreadsheetId, options, Serialize(rows));
      UploadRun(metadata, failures, log, spreadsheetId, options, Ok(rows))
        == if r.failure.Some? then Run(r.log, [Event(Parsing, 0, 0)] + r.events, r.failure)
           else Run(t.log, [Event(Parsing, 0, 0)] + r.events + t.events, t.failure)
  {
  }

  /** Steady events have percentages within 0..100 that never decrease. */
  lemma {:induction false} SteadyPercents(events: seq<ProgressEvent>, total: nat)
    requires Steady(events, total)
    ensures forall i :: 0 <= i < |events| ==> events[i].totalRows == total && events[i].processedRows <= total
    ensures forall i, j :: 0 <= i <= j < |events| ==> events[i].processedRows <= events[j].processedRows
    ensures forall i :: 0 <= i < |events| ==> 0 <= events[i].percent <= 100
    ensures forall i, j :: 0 <= i <= j < |events| ==> events[i].percent <= events[j].percent
  {
    forall i, j | 0 <= i <= j < |events|
      ensures 0 <= events[i].percent <= 100 && events[i].percent <= events[j].percent
    {
      PercentBounds(events[i].processedRows, total);
      PercentMonotone(events[i].processedRows, events[j].processedRows, total);
    }
  }

  /** An upload only appends to the service's log. */
  lemma {:induction false} UploadRunExtendsLog(metadata: seq<SheetProperties>, failures: map<nat, Error>, log: seq<Request>,
                            spreadsheetId: string, options: UploadOptions, resolved: Result<Grid, Error>)
    ensures var run := UploadRun(metadata, failures, log, spreadsheetId, options, resolved);
      |log| <= |run.log| && run.log[..|log|] == log
  {
    var run := UploadRun(metadata, failures, log, spreadsheetId, options, resolved);
    if resolved.Ok? && resolved.value != [] {
      var rows := resolved.value;
      var r := Prepare(metadata, failures, log, spreadsheetId, options, |rows|);
      assert |log| <= |r.log| && r.log[..|log|] == log;
      if r.failure.None? {
        TransferRequests(failures, r.log, spreadsheetId, options, Serialize(rows));
        var t := Transfer(failures, r.log, spreadsheetId, options, Serialize(rows));
        assert run.log == t.log;
        assert t.log[..|log|] == t.log[..|r.log|][..|log|];
      }
    }
  }
}
