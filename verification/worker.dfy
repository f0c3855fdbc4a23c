/**
  `Worker.start`: the life of one report on one worker. The model service call
  is an input (`CallOutcome`), and everything the method does to the outside
  world is returned as an ordered list of effects: rows saved, result rows and
  log rows created, and the finish callback.
*/
module Worker {
  import opened Wrappers
  import opened Status
  import opened Reports

  /** Floating-point probabilities are carried as opaque payload. */
  type Probability = real

  /** One scored sentence of a `ModelResponse`. */
  datatype Recognition = Recognition(sentence: string, isParaphrase: bool, probability: Probability)

  /** A response of the model service that passed validation. */
  datatype ModelResponse = ModelResponse(
    version: string,
    sourceText: string,
    recognition: seq<Recognition>,
    recognitionTime: string)

  /**
    What the guarded block makes of the service call: a validated response, or
    the text of the exception raised by the request, the JSON decoding, the
    validation or the bulk insert.
  */
  datatype CallOutcome = Responded(response: ModelResponse) | Failed(error: string)

  /** A `ReportRecognition` row. */
  datatype RecognitionRow = RecognitionRow(report: nat, sentence: string, isParaphrase: bool, probability: Probability)

  /** A `ReportLog` row. */
  datatype LogRow = LogRow(report: nat, error: string)

  /** A worker: its id and the URL of the model host it calls. */
  datatype Handle = Handle(id: nat, url: string)

  /** One externally visible step of `Worker.start`, in execution order. */
  datatype Effect =
    | Saved(row: Report)
    | RecognitionsCreated(rows: seq<RecognitionRow>)
    | LogCreated(entry: LogRow)
    | Callback(workerId: nat)

  /** The result of one `Worker.start`: the final record, its effects, and the re-raised error if any. */
  datatype Run = Run(report: Report, effects: seq<Effect>, raised: Option<string>)

  /** The worker ids passed to the finish callback, in order. */
  function Callbacks(effects: seq<Effect>): seq<nat> {
    if effects == [] then []
    else (if effects[0].Callback? then [effects[0].workerId] else []) + Callbacks(effects[1..])
  }

  /** The log rows created, in order. */
  function Logs(effects: seq<Effect>): seq<LogRow> {
    if effects == [] then []
    else (if effects[0].LogCreated? then [effects[0].entry] else []) + Logs(effects[1..])
  }

  /** The batches of result rows created, in order. */
  function Batches(effects: seq<Effect>): seq<seq<RecognitionRow>> {
    if effects == [] then []
    else (if effects[0].RecognitionsCreated? then [effects[0].rows] else []) + Batches(effects[1..])
  }

  /** The record as saved by each `save()`, in order. */
  function SavedRows(effects: seq<Effect>): seq<Report> {
    if effects == [] then []
    else (if effects[0].Saved? then [effects[0].row] else []) + SavedRows(effects[1..])
  }

  /** Each projection of an effect list splits over concatenation. */
  lemma {:induction false} ProjectionsSplit(a: seq<Effect>, b: seq<Effect>)
    ensures Callbacks(a + b) == Callbacks(a) + Callbacks(b)
    ensures Logs(a + b) == Logs(a) + Logs(b)
    ensures Batches(a + b) == Batches(a) + Batches(b)
    ensures SavedRows(a + b) == SavedRows(a) + SavedRows(b)
  {
    if a != [] {
      assert (a + b)[1..] == a[1..] + b;
      ProjectionsSplit(a[1..], b);
    } else {
      assert a + b == b;
    }
  }

  /** The projections of a single effect. */
  lemma ProjectSingle(e: Effect)
    ensures Callbacks([e]) == if e.Callback? then [e.workerId] else []
    ensures Logs([e]) == if e.LogCreated? then [e.entry] else []
    ensures Batches([e]) == if e.RecognitionsCreated? then [e.rows] else []
    ensures SavedRows([e]) == if e.Saved? then [e.row] else []
  {
    assert [e][1..] == [];
  }

  /** The projections of a three-step effect list. */
  lemma ProjectThree(a: Effect, b: Effect, c: Effect)
    ensures Callbacks([a, b, c]) == Callbacks([a]) + Callbacks([b]) + Callbacks([c])
    ensures Logs([a, b, c]) == Logs([a]) + Logs([b]) + Logs([c])
    ensures Batches([a, b, c]) == Batches([a]) + Batches([b]) + Batches([c])
    ensures SavedRows([a, b, c]) == SavedRows([a]) + SavedRows([b]) + SavedRows([c])
  {
    assert [a, b, c] == [a] + [b] + [c];
    ProjectionsSplit([a] + [b], [c]);
    ProjectionsSplit([a], [b]);
  }

  /** The record after the first phase of `start`: start time stamped, status IN_PROCESS. */
  function Begin(report: Report, now: Tick): (r: Report)
    ensures r.status == Code(InProcess) && r.startedAt == Some(now)
    ensures r.id == report.id && r.text == report.text && r.owner == report.owner
    ensures r.createdAt == report.createdAt && r.endedAt == report.endedAt && r.modelVersion == report.modelVersion
  {
    report.(startedAt := Some(now), status := Code(InProcess))
  }

  /** The first phase of `start`: one save of the begun record. */
  function BeginEffects(report: Report, now: Tick): (effects: seq<Effect>)
    ensures SavedRows(effects) == [Begin(report, now)]
    ensures Callbacks(effects) == [] && Logs(effects) == [] && Batches(effects) == []
  {
    [Saved(Begin(report, now))]
  }

  /** The result rows for a response, one per recognition, in response order. */
  function RowsFor(reportId: nat, recognitions: seq<Recognition>): (rows: seq<RecognitionRow>)
    ensures |rows| == |recognitions|
    ensures forall i :: 0 <= i < |rows| ==>
      rows[i].report == reportId && rows[i].sentence == recognitions[i].sentence
      && rows[i].isParaphrase == recognitions[i].isParaphrase && rows[i].probability == recognitions[i].probability
  {
    seq(|recognitions|, i requires 0 <= i < |recognitions| =>
      RecognitionRow(reportId, recognitions[i].sentence, recognitions[i].isParaphrase, recognitions[i].probability))
  }

  /** The three effects of the second phase of `start`: a write, the final save, the callback. */
  lemma ProjectPhase(worker: Handle, first: Effect, row: Report)
    requires first.RecognitionsCreated? || first.LogCreated?
    ensures var effects := [first, Saved(row), Callback(worker.id)];
      && Callbacks(effects) == [worker.id]
      && SavedRows(effects) == [row]
      && Logs(effects) == (if first.LogCreated? then [first.entry] else [])
      && Batches(effects) == (if first.RecognitionsCreated? then [first.rows] else [])
  {
    ProjectThree(first, Saved(row), Callback(worker.id));
    ProjectSingle(first);
    ProjectSingle(Saved(row));
    ProjectSingle(Callback(worker.id));
  }

  /** The success path of the second phase of `start`: see `Finish`. */
  function Succeed(worker: Handle, report: Report, response: ModelResponse, now: Tick): (run: Run)
    ensures run.report == report.(modelVersion := Some(response.version), status := Code(Completed), endedAt := Some(now))
    ensures run.raised.None?
    ensures |run.effects| == 3 && run.effects[2] == Callback(worker.id)
    ensures Callbacks(run.effects) == [worker.id]
    ensures SavedRows(run.effects) == [run.report]
    ensures Logs(run.effects) == [] && Batches(run.effects) == [RowsFor(report.id, response.recognition)]
  {
    var done := report.(modelVersion := Some(response.version), status := Code(Completed), endedAt := Some(now));
    var created := RecognitionsCreated(RowsFor(report.id, response.recognition));
    ProjectPhase(worker, created, done);
    Run(done, [created, Saved(done), Callback(worker.id)], None)
  }

  /** The failure path of the second phase of `start`: see `Finish`. */
  function Fail(worker: Handle, report: Report, error: string, now: Tick): (run: Run)
    ensures run.report == report.(status := Code(Error), endedAt := Some(now))
    ensures run.raised == Some(error)
    ensures |run.effects| == 3 && run.effects[2] == Callback(worker.id)
    ensures Callbacks(run.effects) == [worker.id]
    ensures SavedRows(run.effects) == [run.report]
    ensures Logs(run.effects) == [LogRow(report.id, error)] && Batches(run.effects) == []
  {
    var failed := report.(status := Code(Error), endedAt := Some(now));
    var logged := LogCreated(LogRow(report.id, error));
    ProjectPhase(worker, logged, failed);
    Run(failed, [logged, Saved(failed), Callback(worker.id)], Some(error))
  }

  /**
    The second phase of `start`, from the service call on: on a response, the
    result rows are bulk-created and the record completed with the model version;
    on a failure, the record is marked ERROR, a log row is written and the error
    is re-raised. Either way the `finally` block stamps the end time, saves, and
    calls back with the worker's id.
  */
  function Finish(worker: Handle, report: Report, outcome: CallOutcome, now: Tick): (run: Run)
    ensures run.report.id == report.id && run.report.text == report.text
    ensures run.report.owner == report.owner && run.report.startedAt == report.startedAt
    ensures run.report.createdAt == report.createdAt && run.report.endedAt == Some(now)
    ensures run.report.status == if outcome.Responded? then Code(Completed) else Code(Error)
    ensures run.report.modelVersion ==
      if outcome.Responded? then Some(outcome.response.version) else report.modelVersion
    ensures run.raised == if outcome.Responded? then None else Some(outcome.error)
    ensures |run.effects| == 3 && run.effects[2] == Callback(worker.id)
    ensures Callbacks(run.effects) == [worker.id]
    ensures SavedRows(run.effects) == [run.report]
    ensures outcome.Responded? ==>
      Logs(run.effects) == [] && Batches(run.effects) == [RowsFor(report.id, outcome.response.recognition)]
    ensures outcome.Failed? ==>
      Logs(run.effects) == [LogRow(report.id, outcome.error)] && Batches(run.effects) == []
  {
    match outcome
    case Responded(response) => Succeed(worker, report, response, now)
    case Failed(error) => Fail(worker, report, error, now)
  }

  /** The projections of the first save followed by the second phase's effects. */
  lemma ProjectStart(id: nat, begun: Report, rest: seq<Effect>)
    requires |rest| == 3 && rest[2] == Callback(id)
    ensures var effects := [Saved(begun)] + rest;
      && Callbacks(effects) == Callbacks(rest)
      && SavedRows(effects) == [begun] + SavedRows(rest)
      && Logs(effects) == Logs(rest) && Batches(effects) == Batches(rest)
      && effects[|effects| - 1] == Callback(id)
  {
    ProjectionsSplit([Saved(begun)], rest);
    ProjectSingle(Saved(begun));
  }

  /**
    `Worker.start` as a whole. The finish callback runs exactly once, with the
    worker's own id, as the very last effect, for either call outcome. The record
    is saved twice: IN_PROCESS with the start time, then in its terminal status
    with the end time. A response completes the record with the model version
    and one batch of result rows in response order, and no log row; a failure
    ends in ERROR with exactly one log row carrying the error, no result rows,
    and the error re-raised.
  */
  function Start(worker: Handle, report: Report, outcome: CallOutcome, startTick: Tick, endTick: Tick): (run: Run)
    ensures Callbacks(run.effects) == [worker.id]
    ensures |run.effects| > 0 && run.effects[|run.effects| - 1] == Callback(worker.id)
    ensures run.effects[0] == Saved(Begin(report, startTick))
    ensures |SavedRows(run.effects)| == 2
    ensures SavedRows(run.effects)[0].status == Code(InProcess)
    ensures SavedRows(run.effects)[0].startedAt == Some(startTick)
    ensures SavedRows(run.effects)[1] == run.report
    ensures run.report.id == report.id && run.report.text == report.text
    ensures run.report.owner == report.owner && run.report.createdAt == report.createdAt
    ensures run.report.startedAt == Some(startTick) && run.report.endedAt == Some(endTick)
    ensures outcome.Responded? ==>
      && run.report.status == Code(Completed)
      && run.report.modelVersion == Some(outcome.response.version)
      && Logs(run.effects) == []
      && run.raised.None?
      && Batches(run.effects) == [RowsFor(report.id, outcome.response.recognition)]
    ensures outcome.Failed? ==>
      && run.report.status == Code(Error)
      && run.report.modelVersion == report.modelVersion
      && Logs(run.effects) == [LogRow(report.id, outcome.error)]
      && Batches(run.effects) == []
      && run.raised == Some(outcome.error)
  {
    var begun := Begin(report, startTick);
    var rest := Finish(worker, begun, outcome, endTick);
    ProjectStart(worker.id, begun, rest.effects);
    Run(rest.report, BeginEffects(report, startTick) + rest.effects, rest.raised)
  }

  /**
    The statuses saved by `start` walk the lifecycle: IN_PROCESS first, then a
    terminal status reachable from it in one legal move, COMPLETED exactly when
    the service responded.
  */
  lemma StartWalksLifecycle(worker: Handle, report: Report, outcome: CallOutcome, startTick: Tick, endTick: Tick)
    ensures
      var saved := SavedRows(Start(worker, report, outcome, startTick, endTick).effects);
      && Decode(saved[0].status) == Some(InProcess)
      && Decode(saved[1].status).Some?
      && Next(InProcess, Decode(saved[1].status).value)
      && Terminal(Decode(saved[1].status).value)
      && (Decode(saved[1].status) == Some(Completed) <==> outcome.Responded?)
  {
    var saved := SavedRows(Start(worker, report, outcome, startTick, endTick).effects);
    assert Decode(saved[0].status) == Some(InProcess);
    if outcome.Responded? {
      assert Decode(saved[1].status) == Some(Completed);
    } else {
      assert Decode(saved[1].status) == Some(Error);
    }
  }
}
