/**
  The calculation manager together with the report table: submitting a stored
  report, and a running worker completing it. Starting a thread runs the first
  phase of `Worker.start` (the record becomes IN_PROCESS) at once; the rest of
  `Worker.start` runs when the worker completes, and its finish callback is what
  releases the worker to the manager.
*/
module Service {
  import opened Wrappers
  import opened Status
  import opened Reports
  import opened Worker
  import opened Scheduler

  /** The tables the core writes: reports, result rows and log rows. */
  datatype Db = Db(reports: Store, recognitions: seq<RecognitionRow>, logs: seq<LogRow>)

  /** The report tables and the manager. */
  datatype System = System(db: Db, manager: Manager)

  /** The database after one effect; a callback leaves the tables alone. */
  function ApplyEffect(db: Db, e: Effect): Db {
    match e
    case Saved(row) => db.(reports := db.reports[row.id := row])
    case RecognitionsCreated(rows) => db.(recognitions := db.recognitions + rows)
    case LogCreated(entry) => db.(logs := db.logs + [entry])
    case Callback(_) => db
  }

  /** The database after a list of effects, in order. */
  function Apply(db: Db, effects: seq<Effect>): Db
    decreases |effects|
  {
    if effects == [] then db else Apply(ApplyEffect(db, effects[0]), effects[1..])
  }

  /** Applying two lists of effects is applying their concatenation. */
  lemma {:induction false} ApplySplit(db: Db, a: seq<Effect>, b: seq<Effect>)
    ensures Apply(db, a + b) == Apply(Apply(db, a), b)
    decreases |a|
  {
    if a == [] {
      assert a + b == b;
    } else {
      assert (a + b)[0] == a[0];
      assert (a + b)[1..] == a[1..] + b;
      ApplySplit(ApplyEffect(db, a[0]), a[1..], b);
    }
  }

  /** Applying a one-effect list. */
  lemma ApplyOne(db: Db, e: Effect)
    ensures Apply(db, [e]) == ApplyEffect(db, e)
  {
    assert [e][1..] == [];
    assert Apply(db, [e]) == Apply(ApplyEffect(db, e), []);
  }

  /** Applying a three-effect list, one effect at a time. */
  lemma ApplyThree(db: Db, a: Effect, b: Effect, c: Effect)
    ensures Apply(db, [a, b, c]) == ApplyEffect(ApplyEffect(ApplyEffect(db, a), b), c)
  {
    var d1 := ApplyEffect(db, a);
    var d2 := ApplyEffect(d1, b);
    assert [a, b, c][1..] == [b, c];
    assert Apply(db, [a, b, c]) == Apply(d1, [b, c]);
    assert [b, c][1..] == [c];
    assert Apply(d1, [b, c]) == Apply(d2, [c]);
    ApplyOne(d2, c);
  }

  /**
    Running the first phase when the thread starts and the second when it
    completes writes exactly what one uninterrupted `Worker.start` writes.
  */
  lemma SplitStartIsStart(db: Db, worker: Handle, report: Report, outcome: CallOutcome, t0: Tick, t1: Tick)
    ensures Apply(Apply(db, BeginEffects(report, t0)), Finish(worker, Begin(report, t0), outcome, t1).effects)
         == Apply(db, Start(worker, report, outcome, t0, t1).effects)
  {
    ApplySplit(db, BeginEffects(report, t0), Finish(worker, Begin(report, t0), outcome, t1).effects);
  }

  /** The tables after the first phase of `Worker.start` on a stored report. */
  function Launch(db: Db, spawned: Option<Spawn>, now: Tick): (db': Db)
    ensures spawned.Some? && spawned.value.report in db.reports ==>
      var id := spawned.value.report;
      && db'.reports == db.reports[db.reports[id].id := Begin(db.reports[id], now)]
      && db'.recognitions == db.recognitions && db'.logs == db.logs
    ensures spawned.None? ==> db' == db
  {
    if spawned.None? || spawned.value.report !in db.reports then db
    else
      var id := spawned.value.report;
      ApplyOne(db, Saved(Begin(db.reports[id], now)));
      Apply(db, BeginEffects(db.reports[id], now))
  }

  /** The tables after the second phase of `Worker.start`. */
  lemma ApplyFinish(db: Db, worker: Handle, report: Report, outcome: CallOutcome, now: Tick)
    ensures var run := Finish(worker, report, outcome, now);
      var db' := Apply(db, run.effects);
      && db'.reports == db.reports[run.report.id := run.report]
      && (outcome.Responded? ==>
            db'.recognitions == db.recognitions + RowsFor(report.id, outcome.response.recognition)
            && db'.logs == db.logs)
      && (outcome.Failed? ==>
            db'.recognitions == db.recognitions && db'.logs == db.logs + [LogRow(report.id, outcome.error)])
  {
    var run := Finish(worker, report, outcome, now);
    ApplyThree(db, run.effects[0], run.effects[1], run.effects[2]);
  }

  /**
    A system event: a stored report handed to `calculate`, or a worker's thread
    completing. A completion reads the clock twice, in two threads: `now` is
    the end time the finishing thread stamps, `started` the start time the
    thread it hands the worker to stamps.
  */
  datatype Action =
    | SubmitReport(report: nat, now: Tick)
    | WorkerDone(worker: nat, outcome: CallOutcome, now: Tick, started: Tick)

  /**
    One event. `calculate` receives a stored report, and only a worker whose
    thread is running can complete; other events are not possible (`None`).
    On completion, the worker id the finish callback passes is the one released.
  */
  function Step(s: System, a: Action): (r: Option<System>)
    ensures a.SubmitReport? ==> (r.Some? <==> a.report in s.db.reports)
    ensures r.Some? ==> r.value.manager.workers == s.manager.workers
  {
    match a
    case SubmitReport(id, now) =>
      if id !in s.db.reports then None
      else
        var t := Calculate(s.manager, id);
        Some(System(Launch(s.db, t.spawned, now), t.after))
    case WorkerDone(w, outcome, now, started) => Complete(s, w, outcome, now, started)
  }

  /**
    Worker `w` finishes the report it runs: the rest of `Worker.start` runs on
    the stored row, and its callback releases the worker, which may start the
    head of the queue.
  */
  function Complete(s: System, w: nat, outcome: CallOutcome, now: Tick, started: Tick): (r: Option<System>)
    ensures r.Some? <==>
      && w in s.manager.busy && w in s.manager.workers && s.manager.busy[w] in s.db.reports
      && s.manager.workers[w].id in s.manager.workers
    ensures r.Some? ==> r.value.manager.workers == s.manager.workers
  {
    if w !in s.manager.busy || w !in s.manager.workers || s.manager.busy[w] !in s.db.reports then None
    else
      var run := Finish(s.manager.workers[w], s.db.reports[s.manager.busy[w]], outcome, now);
      var db := Apply(s.db, run.effects);
      match Release(s.manager, Callbacks(run.effects)[0])
      case Failure(_) => None
      case Success(t) => Some(System(Launch(db, t.spawned, started), t.after))
  }

  /** The report is stored with the given status. */
  predicate HasStatus(db: Db, id: nat, st: ReportStatus) {
    id in db.reports && db.reports[id].status == Code(st)
  }

  /** Rows sit under their own ids and carry a status code the service can read. */
  predicate Readable(db: Db) {
    && Keyed(db.reports)
    && forall k :: k in db.reports ==> Decode(db.reports[k].status).Some?
  }

  /** Every queued report is stored and WAITING. */
  predicate QueuedWaiting(db: Db, queue: seq<ReportId>) {
    forall i :: 0 <= i < |queue| ==> HasStatus(db, queue[i], Waiting)
  }

  /** Every running report is stored and IN_PROCESS. */
  predicate BusyRunning(db: Db, busy: map<nat, ReportId>) {
    forall w :: w in busy ==> HasStatus(db, busy[w], InProcess)
  }

  /** No report runs on two workers. */
  predicate OneWorkerEach(busy: map<nat, ReportId>) {
    forall w, v :: w in busy && v in busy && w != v ==> busy[w] != busy[v]
  }

  /**
    The system invariant: the manager's invariant; readable rows; every queued
    report WAITING and queued once; every running report IN_PROCESS and on one
    worker only.
  */
  predicate SInv(s: System) {
    && Inv(s.manager)
    && Readable(s.db)
    && NoDup(s.manager.queue)
    && QueuedWaiting(s.db, s.manager.queue)
    && BusyRunning(s.db, s.manager.busy)
    && OneWorkerEach(s.manager.busy)
  }

  /**
    The service at start-up: `__init__` builds the manager over tables the
    service can read. Nothing is queued or running yet, so the system
    invariant holds from the first event on.
  */
  method Boot(db: Db, hosts: seq<string>, workersByModel: int) returns (s: System)
    requires Readable(db)
    ensures SInv(s) && s.db == db
    ensures s.manager.queue == [] && s.manager.busy == map[]
    ensures BuiltFrom(s.manager.workers, hosts, RangeLength(workersByModel))
  {
    var m := Init(hosts, workersByModel);
    s := System(db, m);
  }

  /** A report may be submitted when it is stored, WAITING and not already queued. */
  predicate Submittable(s: System, id: nat) {
    HasStatus(s.db, id, Waiting) && id !in s.manager.queue
  }

  /** A stored report keeps its status or takes one legal move. */
  predicate Moved(before: Report, after: Report) {
    before.status == after.status ||
    (Decode(before.status).Some? && Decode(after.status).Some? &&
     Next(Decode(before.status).value, Decode(after.status).value))
  }

  /** Between two tables, every stored report is kept and moves forward at most one step. */
  predicate MovesForward(db: Db, db': Db) {
    forall k :: k in db.reports ==> k in db'.reports && Moved(db.reports[k], db'.reports[k])
  }

  /**
    Moving forward never lowers a readable report's position in the lifecycle,
    and a report that has reached COMPLETED or ERROR keeps its status.
  */
  lemma MovesForwardKeepsRank(db: Db, db': Db, k: nat)
    requires Readable(db) && Readable(db') && MovesForward(db, db') && k in db.reports
    ensures k in db'.reports
    ensures Rank(Decode(db.reports[k].status).value) <= Rank(Decode(db'.reports[k].status).value)
    ensures Terminal(Decode(db.reports[k].status).value) ==> db'.reports[k].status == db.reports[k].status
  {
    var before := Decode(db.reports[k].status).value;
    var after := Decode(db'.reports[k].status).value;
    NextIsForward(before, after);
  }

  /** Every legal move between stored codes counts as moving forward. */
  lemma LegalMove(before: Report, after: Report, from: ReportStatus, to: ReportStatus)
    requires before.status == Code(from) && after.status == Code(to) && Next(from, to)
    ensures Moved(before, after)
  {
    assert Decode(Code(from)) == Some(from);
    assert Decode(Code(to)) == Some(to);
  }

  /** Replacing one row by a row it may move to moves the table forward. */
  lemma UpdateMovesForward(db: Db, db': Db, id: nat, row: Report)
    requires id in db.reports && Moved(db.reports[id], row)
    requires db'.reports == db.reports[id := row]
    ensures MovesForward(db, db')
  {
  }

  /** Replacing one row by a row with the same id and a readable status. */
  lemma UpdateKeepsReadable(db: Db, db': Db, id: nat, row: Report)
    requires Readable(db) && row.id == id && Decode(row.status).Some?
    requires db'.reports == db.reports[id := row]
    ensures Readable(db')
  {
  }

  /** Replacing one row leaves every other row as it was. */
  lemma UpdateKeepsOthers(db: Db, db': Db, id: nat, row: Report)
    requires db'.reports == db.reports[id := row]
    ensures forall k :: k in db.reports && k != id ==> SameRow(db, db', k)
  {
  }

  /** Replacing a row that is not queued keeps every queued report WAITING. */
  lemma UpdateKeepsQueued(db: Db, db': Db, id: nat, row: Report, queue: seq<ReportId>)
    requires QueuedWaiting(db, queue) && id !in queue
    requires db'.reports == db.reports[id := row]
    ensures QueuedWaiting(db', queue)
  {
    forall i | 0 <= i < |queue|
      ensures HasStatus(db', queue[i], Waiting)
    {
      assert queue[i] != id;
    }
  }

  /** Replacing a row that is not running keeps every running report IN_PROCESS. */
  lemma UpdateKeepsBusy(db: Db, db': Db, id: nat, row: Report, busy: map<nat, ReportId>)
    requires BusyRunning(db, busy) && forall v :: v in busy ==> busy[v] != id
    requires db'.reports == db.reports[id := row]
    ensures BusyRunning(db', busy)
  {
  }

  /** A worker starting on an IN_PROCESS report keeps every running report IN_PROCESS. */
  lemma BusyAdd(db: Db, busy: map<nat, ReportId>, w: nat, id: nat)
    requires BusyRunning(db, busy) && HasStatus(db, id, InProcess)
    ensures BusyRunning(db, busy[w := id])
  {
  }

  /** A worker starting on a report no other worker runs keeps one worker per report. */
  lemma OneWorkerAdd(busy: map<nat, ReportId>, w: nat, id: nat)
    requires OneWorkerEach(busy) && forall v :: v in busy && v != w ==> busy[v] != id
    ensures OneWorkerEach(busy[w := id])
  {
  }

  /** A WAITING report is not running. */
  lemma WaitingIsNotRunning(db: Db, busy: map<nat, ReportId>, id: nat)
    requires BusyRunning(db, busy) && HasStatus(db, id, Waiting)
    ensures forall v :: v in busy ==> busy[v] != id
  {
    forall v | v in busy
      ensures busy[v] != id
    {
      assert HasStatus(db, busy[v], InProcess);
      CodeInjective(Waiting, InProcess);
    }
  }

  /** A running report is not queued. */
  lemma RunningIsNotQueued(s: System, w: nat)
    requires SInv(s) && w in s.manager.busy
    ensures s.manager.busy[w] !in s.manager.queue
  {
  }

  /** Starting the thread for a WAITING report: the tables' side. */
  lemma LaunchWaiting(db: Db, busy: map<nat, ReportId>, id: nat, w: nat, now: Tick)
    requires Readable(db) && BusyRunning(db, busy) && HasStatus(db, id, Waiting)
    ensures var db' := Launch(db, Some(Spawn(w, id)), now);
      && Readable(db')
      && MovesForward(db, db')
      && db'.reports == db.reports[id := Begin(db.reports[id], now)]
      && db'.recognitions == db.recognitions && db'.logs == db.logs
      && HasStatus(db', id, InProcess)
      && BusyRunning(db', busy)
      && (forall v :: v in busy ==> busy[v] != id)
  {
    var row := Begin(db.reports[id], now);
    var db' := Launch(db, Some(Spawn(w, id)), now);
    assert db'.reports == db.reports[id := row];
    WaitingIsNotRunning(db, busy, id);
    UpdateKeepsReadable(db, db', id, row);
    UpdateKeepsBusy(db, db', id, row, busy);
    LegalMove(db.reports[id], row, Waiting, InProcess);
    UpdateMovesForward(db, db', id, row);
  }

  /** `calculate` on a free worker: see `SubmitPreservesSInv`. */
  lemma SubmitStarts(s: System, id: nat, now: Tick)
    requires SInv(s) && Submittable(s, id) && s.manager.free != []
    ensures var t := Calculate(s.manager, id);
      var s' := System(Launch(s.db, t.spawned, now), t.after);
      && SInv(s')
      && MovesForward(s.db, s'.db)
      && HasStatus(s'.db, id, InProcess)
      && (forall k :: k in s.db.reports && k != id ==> SameRow(s.db, s'.db, k))
  {
    var t := Calculate(s.manager, id);
    var w := s.manager.free[0];
    var db' := Launch(s.db, t.spawned, now);
    LaunchWaiting(s.db, s.manager.busy, id, w, now);
    CalculatePreservesInv(s.manager, id);
    BusyAdd(db', s.manager.busy, w, id);
    OneWorkerAdd(s.manager.busy, w, id);
    assert t.after.queue == [];
  }

  /** `calculate` with no free worker: see `SubmitPreservesSInv`. */
  lemma SubmitWaits(s: System, id: nat, now: Tick)
    requires SInv(s) && Submittable(s, id) && s.manager.free == []
    ensures Step(s, SubmitReport(id, now)).Some?
    ensures var s' := Step(s, SubmitReport(id, now)).value;
      && SInv(s')
      && s'.db == s.db
      && s'.manager.queue == s.manager.queue + [id]
      && s'.manager.free == [] && s'.manager.busy == s.manager.busy
  {
    CalculatePreservesInv(s.manager, id);
    var s' := Step(s, SubmitReport(id, now)).value;
    assert forall i :: 0 <= i < |s.manager.queue| ==> s'.manager.queue[i] == s.manager.queue[i];
  }

  /**
    Submitting a WAITING report that is not queued yet keeps the system
    invariant and moves no status backwards. The report runs at once on the
    head free worker, now IN_PROCESS, or waits at the tail of the queue with
    the tables untouched.
  */
  lemma SubmitPreservesSInv(s: System, id: nat, now: Tick)
    requires SInv(s) && Submittable(s, id)
    ensures Step(s, SubmitReport(id, now)).Some?
    ensures var s' := Step(s, SubmitReport(id, now)).value;
      && SInv(s')
      && MovesForward(s.db, s'.db)
      && (s.manager.free != [] ==> HasStatus(s'.db, id, InProcess))
      && (s.manager.free == [] ==> s'.db == s.db && s'.manager.queue == s.manager.queue + [id])
      && (forall k :: k in s.db.reports && k != id ==> SameRow(s.db, s'.db, k))
  {
    if s.manager.free != [] {
      SubmitStarts(s, id, now);
    } else {
      SubmitWaits(s, id, now);
    }
  }

  /** Both tables store the same row under `k`. */
  predicate SameRow(db: Db, db': Db, k: nat) {
    k in db.reports && k in db'.reports && db.reports[k] == db'.reports[k]
  }

  /** Two updates of distinct rows, each a legal move, move the table forward. */
  lemma TwoUpdatesMoveForward(db: Db, db1: Db, db2: Db, r: nat, row1: Report, h: nat, row2: Report)
    requires r != h && r in db.reports && h in db.reports
    requires db1.reports == db.reports[r := row1] && db2.reports == db1.reports[h := row2]
    requires Moved(db.reports[r], row1) && Moved(db1.reports[h], row2)
    ensures MovesForward(db, db2)
  {
  }

  /**
    The second phase of `Worker.start` on a running report: the report ends
    COMPLETED with its result rows appended, or ERROR with one log row
    appended; every other row is untouched; the finish callback names the
    worker itself.
  */
  lemma FinishTables(s: System, w: nat, outcome: CallOutcome, now: Tick)
    requires SInv(s) && w in s.manager.busy
    ensures s.manager.busy[w] in s.db.reports && w in s.manager.workers
    ensures var r := s.manager.busy[w];
      var run := Finish(s.manager.workers[w], s.db.reports[r], outcome, now);
      var db1 := Apply(s.db, run.effects);
      && Callbacks(run.effects)[0] == w
      && db1.reports == s.db.reports[r := run.report]
      && Readable(db1)
      && MovesForward(s.db, db1)
      && HasStatus(db1, r, if outcome.Responded? then Completed else Error)
      && QueuedWaiting(db1, s.manager.queue)
      && BusyRunning(db1, s.manager.busy - {w})
      && (outcome.Responded? ==>
            db1.recognitions == s.db.recognitions + RowsFor(r, outcome.response.recognition)
            && db1.logs == s.db.logs)
      && (outcome.Failed? ==>
            db1.recognitions == s.db.recognitions && db1.logs == s.db.logs + [LogRow(r, outcome.error)])
  {
    var r := s.manager.busy[w];
    var report := s.db.reports[r];
    var run := Finish(s.manager.workers[w], report, outcome, now);
    var db1 := Apply(s.db, run.effects);
    ApplyFinish(s.db, s.manager.workers[w], report, outcome, now);
    assert db1.reports == s.db.reports[r := run.report];
    UpdateKeepsReadable(s.db, db1, r, run.report);
    LegalMove(report, run.report, InProcess, if outcome.Responded? then Completed else Error);
    UpdateMovesForward(s.db, db1, r, run.report);
    RunningIsNotQueued(s, w);
    UpdateKeepsQueued(s.db, db1, r, run.report, s.manager.queue);
    UpdateKeepsBusy(s.db, db1, r, run.report, s.manager.busy - {w});
  }

  /** Under the invariant, completion always succeeds, and its parts are these. */
  lemma CompleteUnfolds(s: System, w: nat, outcome: CallOutcome, now: Tick, started: Tick)
    requires SInv(s) && w in s.manager.busy
    ensures s.manager.busy[w] in s.db.reports && w in s.manager.workers
    ensures Release(s.manager, w).Success?
    ensures var run := Finish(s.manager.workers[w], s.db.reports[s.manager.busy[w]], outcome, now);
      var t := Release(s.manager, w).value;
      Step(s, WorkerDone(w, outcome, now, started))
        == Some(System(Launch(Apply(s.db, run.effects), t.spawned, started), t.after))
  {
    FinishTables(s, w, outcome, now);
    ReleasePreservesInv(s.manager, w);
  }

  /** A worker completing with nothing waiting: see `CompletePreservesSInv`. */
  lemma CompleteIdles(s: System, w: nat, outcome: CallOutcome, now: Tick, started: Tick)
    requires SInv(s) && w in s.manager.busy && s.manager.queue == []
    ensures Step(s, WorkerDone(w, outcome, now, started)).Some?
    ensures var s' := Step(s, WorkerDone(w, outcome, now, started)).value;
      && SInv(s')
      && MovesForward(s.db, s'.db)
      && s'.manager.free == s.manager.free + [w]
      && s'.manager.busy == s.manager.busy - {w}
      && s'.db == Apply(s.db, Finish(s.manager.workers[w], s.db.reports[s.manager.busy[w]], outcome, now).effects)
  {
    FinishTables(s, w, outcome, now);
    CompleteUnfolds(s, w, outcome, now, started);
    ReleasePreservesInv(s.manager, w);
    ReleaseIdles(s.manager, w);
  }

  /** Starting the head of the queue on worker `w`: the tables' side. */
  lemma HandOverTables(db: Db, busy: map<nat, ReportId>, queue: seq<ReportId>, w: nat, now: Tick)
    requires queue != [] && NoDup(queue) && w !in busy && OneWorkerEach(busy)
    requires Readable(db) && QueuedWaiting(db, queue) && BusyRunning(db, busy)
    ensures var db' := Launch(db, Some(Spawn(w, queue[0])), now);
      && Readable(db')
      && NoDup(queue[1..])
      && QueuedWaiting(db', queue[1..])
      && BusyRunning(db', busy[w := queue[0]])
      && OneWorkerEach(busy[w := queue[0]])
      && db'.reports == db.reports[queue[0] := Begin(db.reports[queue[0]], now)]
      && db'.recognitions == db.recognitions && db'.logs == db.logs
      && Moved(db.reports[queue[0]], db'.reports[queue[0]])
      && HasStatus(db', queue[0], InProcess)
  {
    var head := queue[0];
    var row := Begin(db.reports[head], now);
    assert HasStatus(db, head, Waiting);
    LaunchWaiting(db, busy, head, w, now);
    var db' := Launch(db, Some(Spawn(w, head)), now);
    assert BusyRunning(db', busy[w := head]) by { BusyAdd(db', busy, w, head); }
    assert OneWorkerEach(busy[w := head]) by { OneWorkerAdd(busy, w, head); }
    QueueTailWaits(db, db', queue, row);
    assert Moved(db.reports[head], db'.reports[head]) by {
      LegalMove(db.reports[head], row, Waiting, InProcess);
    }
  }

  /** Rewriting the head's row leaves the rest of a duplicate-free queue WAITING. */
  lemma QueueTailWaits(db: Db, db': Db, queue: seq<ReportId>, row: Report)
    requires queue != [] && NoDup(queue) && QueuedWaiting(db, queue)
    requires db'.reports == db.reports[queue[0] := row]
    ensures NoDup(queue[1..]) && QueuedWaiting(db', queue[1..])
  {
    assert QueuedWaiting(db, queue[1..]);
    assert queue[0] !in queue[1..];
    UpdateKeepsQueued(db, db', queue[0], row, queue[1..]);
  }

  /**
    Releasing worker `w` onto a non-empty queue, on tables where the report
    `w` ran is no longer counted as running: the head becomes IN_PROCESS on
    `w` and the invariant is restored.
  */
  lemma HandOver(db: Db, m: Manager, w: nat, now: Tick)
    requires Inv(m) && w in m.busy && m.queue != [] && NoDup(m.queue) && OneWorkerEach(m.busy)
    requires Readable(db) && QueuedWaiting(db, m.queue) && BusyRunning(db, m.busy - {w})
    ensures Release(m, w).Success?
    ensures var t := Release(m, w).value;
      var db' := Launch(db, t.spawned, now);
      && SInv(System(db', t.after))
      && db'.reports == db.reports[m.queue[0] := Begin(db.reports[m.queue[0]], now)]
      && db'.recognitions == db.recognitions && db'.logs == db.logs
      && Moved(db.reports[m.queue[0]], db'.reports[m.queue[0]])
      && HasStatus(db', m.queue[0], InProcess)
  {
    ReleasePreservesInv(m, w);
    ReleaseHandsOverHead(m, w);
    var busy1 := m.busy - {w};
    assert OneWorkerEach(busy1);
    HandOverTables(db, busy1, m.queue, w, now);
    assert busy1[w := m.queue[0]] == m.busy[w := m.queue[0]];
  }

  /** A worker completing with reports waiting: see `CompletePreservesSInv`. */
  lemma CompleteHandsOver(s: System, w: nat, outcome: CallOutcome, now: Tick, started: Tick)
    requires SInv(s) && w in s.manager.busy && s.manager.queue != []
    ensures Step(s, WorkerDone(w, outcome, now, started)).Some?
    ensures var s' := Step(s, WorkerDone(w, outcome, now, started)).value;
      var head := s.manager.queue[0];
      && SInv(s')
      && MovesForward(s.db, s'.db)
      && s'.manager.busy == s.manager.busy[w := head]
      && s'.manager.queue == s.manager.queue[1..]
      && HasStatus(s'.db, head, InProcess)
      && s'.db.reports[head].startedAt == Some(started)
    ensures var s' := Step(s, WorkerDone(w, outcome, now, started)).value;
      var db1 := Apply(s.db, Finish(s.manager.workers[w], s.db.reports[s.manager.busy[w]], outcome, now).effects);
      && SameRow(db1, s'.db, s.manager.busy[w])
      && (forall k :: k in db1.reports && k != s.manager.queue[0] ==> SameRow(db1, s'.db, k))
      && s'.db.recognitions == db1.recognitions && s'.db.logs == db1.logs
  {
    var r := s.manager.busy[w];
    var head := s.manager.queue[0];
    FinishTables(s, w, outcome, now);
    CompleteUnfolds(s, w, outcome, now, started);
    var run := Finish(s.manager.workers[w], s.db.reports[r], outcome, now);
    var db1 := Apply(s.db, run.effects);
    HandOver(db1, s.manager, w, started);
    ReleaseHandsOverHead(s.manager, w);
    RunningIsNotQueued(s, w);
    assert head != r;
    var db2 := Launch(db1, Some(Spawn(w, head)), started);
    UpdateKeepsOthers(db1, db2, head, Begin(db1.reports[head], started));
    LegalMove(s.db.reports[r], run.report, InProcess, if outcome.Responded? then Completed else Error);
    TwoUpdatesMoveForward(s.db, db1, db2, r, run.report, head, Begin(db1.reports[head], started));
  }

  /**
    Whatever the queue holds, a busy worker's completion keeps the system
    invariant and moves the tables forward; the report it ran ends COMPLETED
    with its result rows appended after the existing ones, or ERROR with one
    log row carrying the error text; its end time is the finishing thread's
    tick, and the queue head it hands over to gets the new thread's tick.
  */
  lemma CompletePreservesSInv(s: System, w: nat, outcome: CallOutcome, now: Tick, started: Tick)
    requires SInv(s) && w in s.manager.busy
    ensures Step(s, WorkerDone(w, outcome, now, started)).Some?
    ensures var s' := Step(s, WorkerDone(w, outcome, now, started)).value;
      var r := s.manager.busy[w];
      && SInv(s')
      && MovesForward(s.db, s'.db)
      && HasStatus(s'.db, r, if outcome.Responded? then Completed else Error)
      && s'.db.reports[r].endedAt == Some(now)
      && (s.manager.queue != [] ==> s'.db.reports[s.manager.queue[0]].startedAt == Some(started))
      && (forall k :: k in s.db.reports && k != r && (s.manager.queue == [] || k != s.manager.queue[0]) ==>
            SameRow(s.db, s'.db, k))
      && (outcome.Responded? ==>
            s'.db.recognitions == s.db.recognitions + RowsFor(r, outcome.response.recognition)
            && s'.db.logs == s.db.logs)
      && (outcome.Failed? ==>
            s'.db.recognitions == s.db.recognitions && s'.db.logs == s.db.logs + [LogRow(r, outcome.error)])
  {
    var r := s.manager.busy[w];
    FinishTables(s, w, outcome, now);
    var run := Finish(s.manager.workers[w], s.db.reports[r], outcome, now);
    var db1 := Apply(s.db, run.effects);
    UpdateKeepsOthers(s.db, db1, r, run.report);
    if s.manager.queue == [] {
      CompleteIdles(s, w, outcome, now, started);
    } else {
      CompleteHandsOver(s, w, outcome, now, started);
      var s' := Step(s, WorkerDone(w, outcome, now, started)).value;
      forall k | k in s.db.reports && k != r && k != s.manager.queue[0]
        ensures SameRow(s.db, s'.db, k)
      {
        assert SameRow(s.db, db1, k) && SameRow(db1, s'.db, k);
      }
    }
  }
}
