# Report calculation scheduler, modelled in Dafny

This project models the scheduling core of a small Django service that computes
paraphrase reports. A user submits a text, and a *report* row is created in
status WAITING. `ReportCalculationManager` owns a fixed pool of *workers*, each
bound to one host of the model service. `calculate` starts a report at once on
the first free worker, or puts it at the tail of a FIFO queue.
`Worker.start` moves the report through its lifecycle:

- first IN_PROCESS;
- then COMPLETED, with the model version and one result row per recognised
  sentence, when the model service answers;
- or ERROR, with a log row, when the call fails.

Either way `start` ends by calling back `_release_work`. That returns the
worker to the free list and hands it the head of the queue, if there is one.
`get_queue_place` tells a waiting report its 1-based place in the queue.

The model is functional. The manager is an immutable value:

- the pool (`workers`);
- the FIFO `queue` of report ids;
- the ordered `free` list;
- the record of running threads, `busy` (worker id to report id).

Each operation is a pure function from one state to the next. Starting a thread
is an atomic step that returns the `Spawn(worker, report)` it would start.
`Worker.start` is a list of *effects* (saves, batch inserts, log rows, the
callback) computed from the outcome of the service call. That outcome is a
parameter: a response (version and recognitions) or a failure (error text).
The report table is a map from primary key to record.

Modules, in dependency order:

- `Wrappers`: `Option` and `Result`.
- `Status`: the four statuses, their one-letter stored codes, decoding, and
  the lifecycle order.
- `Reports`: the report record and table; `load`, `create` and
  `get_report_info`.
- `Worker`: `Worker.start` as effects.
- `Scheduler`: the manager, `__build_workers`, `__init__`, `calculate`,
  `get_queue_place`, `_release_work`, and the scheduling invariant `Inv`.
- `Runs`: whole sequences of submissions and callbacks. Proves FIFO order, and
  that starts and finishes balance.
- `Service`: the manager and the tables together. Proves that statuses agree
  with the scheduler: queued means WAITING, running means IN_PROCESS, and
  statuses only move forward.
- `Scenario`: the one-host, one-worker walk-through.

## Model

| member | source | states |
|---|---|---|
| Status.Code | report/models.py:8-15 | every status is stored as a code of one to three characters, which fits the `max_length=3` column |
| Status.ByName | report/service/report.py:15-19 | looking a status up by member name succeeds exactly on the four names, and gives the member of that name |
| Status.Decode | report/service/report.py:63-72 | decoding a stored code fails exactly for a code outside the W/P/C/E table; on those four codes it is the inverse of `Code`, so stored codes and statuses are in bijection |
| Status.CodeInjective | report/models.py:8-11 | two statuses share a stored code only if they are the same status |
| Status.Rank | report/service/calculation_manager.py:44-66 | the lifecycle position is at most 2, and it is 2 exactly for the terminal statuses COMPLETED and ERROR |
| Status.NextIsForward | report/service/calculation_manager.py:44-66 | every legal status move raises the lifecycle position, and no move leaves a terminal status |
| Reports.Load | report/service/report.py:43-50 | succeeds iff the id is stored and either no user is given or the user owns the row; on success it returns the stored row unchanged; on failure the error is `ReportDoesNotExist` for that id |
| Reports.ForeignReportLooksMissing | report/service/report.py:46-50 | loading somebody else's report gives the same result as loading an id that is not stored at all |
| Reports.Create | report/service/report.py:53-56 | the new row is WAITING, carries the given text, owner and creation time, and has no start time, end time or model version; it is added under its own key and every other row is kept; the owner can load it back |
| Reports.CreateKeepsKeyed | report/service/report.py:53-55 | creating a report keeps every row stored under its own primary key |
| Reports.GetReportInfo | report/service/report.py:61-79 | a vanished row fails; otherwise it succeeds iff the stored code is in the table; the info carries the handle's primary key and the stored text and owner, its status is the one the code stands for, and the order is never filled in |
| Reports.CreatedReportReadsWaiting | report/service/report.py:52-79 | a freshly created report reads back as WAITING, with its own id, text and owner and no order |
| Worker.Begin | report/service/calculation_manager.py:44-45 | the begun record is IN_PROCESS with the start time stamped; its id, text, owner, creation time, end time and model version are kept |
| Worker.BeginEffects | report/service/calculation_manager.py:44-46 | the first phase of `start` saves the begun record exactly once, and creates no result rows, no log row and no callback |
| Worker.RowsFor | report/service/calculation_manager.py:49-57 | one result row per recognition, in response order, each with the report id and that recognition's sentence, flag and probability |
| Worker.Succeed | report/service/calculation_manager.py:48-67 | on a response: one batch of result rows, no log row, the record saved once as COMPLETED with the response's version and the end time, nothing raised, and the callback with the worker's id last |
| Worker.Fail | report/service/calculation_manager.py:60-67 | on a failure: exactly one log row with the error text, no result rows, the record saved once as ERROR with the end time and the version untouched, the error re-raised, and the callback last |
| Worker.Finish | report/service/calculation_manager.py:47-67 | for either call outcome (a response or a failure), the callback runs exactly once with the worker's id, as the last of three effects; the record ends COMPLETED or ERROR as the outcome says; id, text, owner and start time are kept |
| Worker.Start | report/service/calculation_manager.py:42-67 | the first effect is the IN_PROCESS save, ahead of any result or log row; one callback, with the worker's id, as the very last effect; two saves, IN_PROCESS with the start time and then the final record; on a response COMPLETED with the model version, one batch in response order and no log; on a failure ERROR with the version untouched, one log row, no batch, and the error re-raised |
| Worker.StartWalksLifecycle | report/service/calculation_manager.py:42-67 | the statuses `start` saves decode to IN_PROCESS and then a terminal status one legal move away; it is COMPLETED exactly when the service responded |
| Scheduler.BuildWorkers | report/service/calculation_manager.py:105-112 | with perHost the number of values `range(workers_by_model)` yields (none for a count of zero or less), the pool has ids exactly 0 up to (number of hosts × perHost) − 1, and worker `i` has id `i` and is bound to host `i / perHost`; a count of zero or less builds an empty pool |
| Scheduler.Init | report/service/calculation_manager.py:75-78 | after construction the queue is empty, nothing runs, the free list holds every worker in id order (none for a per-host count of zero or less), and the invariant holds |
| Scheduler.Calculate | report/service/calculation_manager.py:80-87 | with a free worker, exactly the head of the free list leaves it and becomes busy with the report, that thread is the one started, and the queue is unchanged; with no free worker, the report joins the queue tail, nothing starts, and the free and busy workers are unchanged; the pool never changes |
| Scheduler.PoolConserved | report/service/calculation_manager.py:78-103 | under the invariant, free and busy workers together number the whole pool |
| Scheduler.IndexOf | report/service/calculation_manager.py:93 | the first index holding the id, or none exactly when no entry holds it |
| Scheduler.GetQueuePlace | report/service/calculation_manager.py:89-95 | the result is the 1-based place of the first queue entry holding the id, so it lies between 1 and the queue length; the not-in-queue error comes exactly when no entry holds it |
| Scheduler.Release | report/service/calculation_manager.py:97-98 | releasing fails exactly for an id outside the pool, and never changes the pool |
| Scheduler.CalculatePreservesInv | report/service/calculation_manager.py:80-87 | `calculate` keeps the invariant: a non-empty queue means no free worker, and free plus busy workers are the whole pool with no duplicates |
| Scheduler.CalculatePlaces | report/service/calculation_manager.py:80-95 | after `calculate` a started report has no queue place, a newly queued one is last, and every report already queued keeps its place |
| Scheduler.ReleasePreservesInv | report/service/calculation_manager.py:97-103 | releasing a busy worker succeeds and keeps the invariant |
| Scheduler.ReleaseHandsOverHead | report/service/calculation_manager.py:97-103 | with reports waiting, the released worker itself starts the old queue head, the free list stays empty, and every other waiting report moves up exactly one place |
| Scheduler.ReleaseIdles | report/service/calculation_manager.py:97-102 | with nothing waiting, the released worker is appended to the free list, stops being busy, and nothing starts |
| Runs.Step | report/service/calculation_manager.py:80-103 | a submission is always possible; a callback is possible exactly for a worker that is in the pool and has a running thread; no event changes the pool |
| Runs.Run | report/service/calculation_manager.py:80-103 | no run of events changes the pool, and a run starts and finishes at most as many threads as it has events |
| Runs.SubmitAccounts | report/service/calculation_manager.py:80-87 | one submission keeps the invariant; the report started followed by the new queue is the old queue plus the report; one more thread runs iff one started |
| Runs.DoneAccounts | report/service/calculation_manager.py:97-103 | one callback keeps the invariant; the report started followed by the new queue is the old queue; the finished thread leaves and the started one joins the running threads |
| Runs.StepAccounts | report/service/calculation_manager.py:80-103 | any possible event keeps the invariant; a report leaves the queue only by starting; started plus running before equals finished plus running after |
| Runs.RunKeepsOrder | report/service/calculation_manager.py:80-103 | over any run, the reports started followed by those still queued are the reports queued at the start followed by those submitted, so the queue is first in, first out; the invariant holds at the end |
| Runs.RunBalances | report/service/calculation_manager.py:80-103 | over any run, threads started plus those running at the start equal threads finished plus those running at the end, as multisets |
| Runs.FifoFromFresh | report/service/calculation_manager.py:75-103 | from a fresh manager, the started reports are a prefix of the submitted ones and the queue holds the rest in order; every started thread has either called back once or is still running |
| Runs.SubmitsFillFreeWorkers | report/service/calculation_manager.py:80-87 | submitting a list of reports with nothing finishing starts the first k of them, k the smaller of the list length and the free-list length, on the free workers in free-list order, queues the rest in order, and finishes nothing |
| Runs.QueueOnlySubmits | report/service/calculation_manager.py:82-86 | with no free worker, submissions only append to the queue, in order, and start nothing |
| Runs.StepKeepsQueueOrder | report/service/calculation_manager.py:89-103 | if report A is ahead of report B in the queue, A stays ahead through any event, unless the event is the callback that starts A |
| Service.Boot | report/service/calculation_manager.py:75-78 | at start-up, over readable tables, the freshly built manager has nothing queued or running and the system invariant holds |
| Service.MovesForwardKeepsRank | report/service/calculation_manager.py:44-66 | between readable tables that move forward, no report's position in the lifecycle decreases, and a report that is COMPLETED or ERROR keeps its status |
| Service.Step | report/service/calculation_manager.py:80-103 | submitting a report is possible exactly when its row is stored; no event changes the pool |
| Service.Complete | report/service/calculation_manager.py:64-103 | a completion is possible exactly when the worker is in the pool and running a stored report, and the id its callback passes (its own) is a pool member; it never changes the pool |
| Service.SplitStartIsStart | report/service/calculation_manager.py:42-67 | applying the first save at spawn time and the rest at completion writes the same tables as applying all of `start` at once |
| Service.Launch | report/service/calculation_manager.py:44-46 | starting a thread saves its report as IN_PROCESS with the start time, touches no other table, and changes nothing when no thread starts |
| Service.ApplyFinish | report/service/calculation_manager.py:47-67 | completing a report replaces its row by the final record; a response appends its result rows after the existing ones; a failure appends exactly one log row with the error |
| Service.LaunchWaiting | report/service/calculation_manager.py:44-46 | starting a WAITING report makes exactly that row IN_PROCESS, which is a legal move; running reports stay IN_PROCESS and the new one was not among them |
| Service.SubmitStarts | report/service/calculation_manager.py:80-87 | submitting onto a free worker makes the report IN_PROCESS, keeps the system invariant, moves no status backwards, and leaves every other row as it was |
| Service.SubmitWaits | report/service/calculation_manager.py:82-86 | submitting with no free worker leaves the tables untouched, appends the report to the queue, and keeps the system invariant |
| Service.SubmitPreservesSInv | report/service/calculation_manager.py:80-87 | any submission of a stored WAITING, unqueued report keeps the system invariant (queued means WAITING and queued once; running means IN_PROCESS and on one worker) and moves statuses only forward |
| Service.FinishTables | report/service/calculation_manager.py:47-67 | a running report's completion ends it COMPLETED or ERROR, appends its rows or its log row, keeps the queue WAITING and the other running reports IN_PROCESS, and the callback names the worker itself |
| Service.CompleteIdles | report/service/calculation_manager.py:64-102 | a completion with nothing waiting frees the worker at the tail of the free list and keeps the system invariant |
| Service.HandOverTables | report/service/calculation_manager.py:99-103 | starting the queue head on the released worker makes that report IN_PROCESS, keeps the rest of the queue WAITING, and keeps every running report on one worker |
| Service.HandOver | report/service/calculation_manager.py:97-103 | releasing a worker onto a non-empty queue restores the system invariant, with the head IN_PROCESS on that worker |
| Service.CompleteHandsOver | report/service/calculation_manager.py:64-103 | a completion with reports waiting starts the head on the same worker, shortens the queue by its head, stamps the head with the start tick of the new thread, keeps the system invariant, and touches only the finished row and the head's row |
| Service.CompletePreservesSInv | report/service/calculation_manager.py:47-103 | every completion keeps the system invariant and moves statuses only forward; the report ends COMPLETED with its rows appended, or ERROR with one log row; its end time is the finishing thread's tick, and a queue head it hands over to gets the new thread's start tick; no other row changes except the queue head's |
| Scenario.FirstRuns | report/service/calculation_manager.py:80-87 | with one idle worker, the first submitted report is IN_PROCESS at once and no worker is left free |
| Scenario.OthersWait | report/service/calculation_manager.py:82-95 | with the only worker busy, the next two reports wait at places 1 and 2 in submission order, and no row changes |
| Scenario.HeadTakesOver | report/service/calculation_manager.py:97-103 | when the running report completes, the first waiting report becomes IN_PROCESS on the same worker, the finished report's end time and the new report's start time are the two threads' own ticks, and the second waiting report moves to place 1 |
| Scenario.LastTakesOver | report/service/calculation_manager.py:97-103 | when that report completes, the last waiting report becomes IN_PROCESS and no longer has a queue place |
| Scenario.OneWorkerScenario | report/service/calculation_manager.py:75-103 | one host with one worker, with reports A, B and C submitted in order: A runs at once, B waits at place 1 and C at place 2; A's response makes A COMPLETED, B IN_PROCESS and C place 1; B's failure makes B ERROR with one log row, C IN_PROCESS, and C has no queue place |

## Left out

- Threads: `Thread(...).start()` (calculation_manager.py:87) is an atomic step that returns the thread it starts. The rest of `Worker.start` runs when the model's completion event happens. That event performs the final save and the callback's release as one step, so interleavings of several running threads with each other and with `calculate` are not modelled.
- The HTTP call and the pydantic validation of its answer (calculation_manager.py:13-25, 48) are one opaque outcome: a response or a failure with its error text. A malformed answer counts as a failure.
- `probability` is carried as an uninterpreted real. No floating-point behaviour is modelled.
- `timezone.now()` becomes a tick passed in by the caller. A completion carries two ticks, because two threads read the clock: the finishing thread stamps the end time (calculation_manager.py:65) and the thread it hands the worker to stamps its start time (line 44). The real clock's monotonicity is not assumed.
- Worker.Start: the first `report.save()` (calculation_manager.py:46) runs before the `try` at line 47. If it raised, the thread would end with no callback, and the worker would never return to the free list. The model does not cover this; its promise that `start` calls back exactly once holds only because no save fails. The same goes for `Worker.Finish` and `Runs.RunBalances`.
- Worker.Fail: if `ReportLog.objects.create` (line 62) raised, no log row would be written and that error, not the service's, would be re-raised; the `finally` block would still save and call back. The model does not cover this either.
- The Django ORM (`save`, `bulk_create`, `objects.create`, `objects.get`, `refresh_from_db`) is a map from primary key to record, plus two append-only lists for result rows and log rows. No ORM call fails in the model: every save, insert and read succeeds.
- Result rows have no ordering field. Their order is the order `bulk_create` receives them, which is response order (`Worker.RowsFor`).
- `Reports.Create` takes the primary key as a parameter not yet in use, because the database assigns it.
- `ReportInfo.urls` and `reverse()` (report.py:75-78) are URL building and are left out.
- `ReportManager.calculate` (report.py:58-59) calls `worker.start`, but calculation_manager.py defines no `worker` (report.py:12 imports it). The method is left out.
- Service.Launch: the queue holds report ids, and a thread started by `calculate` or by a hand-over reads its report's row from the table by id (`Service.Launch`, `Service.Complete`). The source queues the `Report` object itself (calculation_manager.py:77, 85), and `start` saves that in-memory object with all its fields (line 46). The two agree unless something else writes the row between `calculate` and the start; such a concurrent write is not modelled.
- The module-level singleton and the settings import (calculation_manager.py:8, 115) are left out. The hosts and the per-host count are parameters of `Scheduler.Init`.
- `ReportNotInCalculationQueue` (calculation_manager.py:10) is not defined in report/service/exceptions.py. `Scheduler.GetQueuePlace` models it as a typed error carrying the report id.
- `Worker.start` writes `calculation_start_dttm`, `calculation_end_dttm` and `model_version`, and uses `ReportLog` and `ReportRecognition`; `ReportManager.create` passes `create_dttm` (report.py:54), which `Reports.Create` carries as `createdAt`. report/models.py declares none of these. The model gives the record and the two tables exactly the fields `start` writes.
- Runs.Step: a callback from a worker that is not running is not an event that can happen, because only a running thread calls back, so a run containing one has no result. `Scheduler.Release` itself still models the call as written: any pool member is appended to the free list.
- Service.Step: a completion is only possible for a running worker whose report row is stored.
- report/service/exceptions.py, report/models.py, the views, the URL configuration and common/api_utils.py are not part of this model beyond the status codes and error names. They hold declarations and HTTP plumbing.
