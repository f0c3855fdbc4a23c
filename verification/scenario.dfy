/**
  The one-host, one-worker walk-through: three reports submitted in a row, the
  first completing with a response and the second with a failure. It follows
  from the general lemmas about submitting and completing.
*/
module Scenario {
  import opened Wrappers
  import opened Reports
  import opened Status
  import opened Worker
  import opened Scheduler
  import opened Service

  /** A pool of exactly one worker, idle: its id is the whole free list and nothing waits. */
  lemma SoleWorkerIdle(m: Manager)
    requires Inv(m) && |m.workers| == 1 && m.busy == map[]
    ensures |m.free| == 1 && m.queue == []
  {
    PoolConserved(m);
  }

  /** The only report in the queue is at place 1. */
  lemma PlaceOfOnly(m: Manager, b: ReportId)
    requires m.queue == [b]
    ensures GetQueuePlace(m, b) == Success(1)
  {
    assert b in m.queue;
  }

  /** Of two queued reports, the first is at place 1 and the second at place 2. */
  lemma PlacesOfTwo(m: Manager, b: ReportId, c: ReportId)
    requires m.queue == [b, c] && b != c
    ensures GetQueuePlace(m, b) == Success(1) && GetQueuePlace(m, c) == Success(2)
  {
    assert b in m.queue && c in m.queue;
  }

  /** Step 1: the first report starts at once on the only worker. */
  lemma FirstRuns(s: System, a: nat, b: nat, c: nat, now: Tick)
    requires SInv(s) && |s.manager.workers| == 1 && s.manager.busy == map[]
    requires a != b && a != c
    requires HasStatus(s.db, a, Waiting) && HasStatus(s.db, b, Waiting) && HasStatus(s.db, c, Waiting)
    ensures Step(s, SubmitReport(a, now)).Some?
    ensures var s' := Step(s, SubmitReport(a, now)).value;
      && SInv(s')
      && HasStatus(s'.db, a, InProcess) && HasStatus(s'.db, b, Waiting) && HasStatus(s'.db, c, Waiting)
      && s'.manager.free == [] && s'.manager.queue == []
      && s.manager.free[0] in s'.manager.busy && s'.manager.busy[s.manager.free[0]] == a
  {
    SoleWorkerIdle(s.manager);
    SubmitPreservesSInv(s, a, now);
    var s' := Step(s, SubmitReport(a, now)).value;
    assert SameRow(s.db, s'.db, b) && SameRow(s.db, s'.db, c);
    assert s'.manager == Calculate(s.manager, a).after;
  }

  /** Steps 2 and 3: with the worker busy, the next reports wait, queued in submission order. */
  lemma OthersWait(s: System, b: nat, c: nat, n2: Tick, n3: Tick)
    requires SInv(s) && s.manager.free == [] && s.manager.queue == [] && b != c
    requires HasStatus(s.db, b, Waiting) && HasStatus(s.db, c, Waiting)
    ensures Step(s, SubmitReport(b, n2)).Some?
    ensures Step(Step(s, SubmitReport(b, n2)).value, SubmitReport(c, n3)).Some?
    ensures var s2 := Step(s, SubmitReport(b, n2)).value;
      var s3 := Step(s2, SubmitReport(c, n3)).value;
      && GetQueuePlace(s2.manager, b) == Success(1)
      && SInv(s3)
      && s3.db == s.db
      && s3.manager.queue == [b, c] && s3.manager.busy == s.manager.busy && s3.manager.free == []
      && GetQueuePlace(s3.manager, b) == Success(1)
      && GetQueuePlace(s3.manager, c) == Success(2)
  {
    SubmitWaits(s, b, n2);
    var s2 := Step(s, SubmitReport(b, n2)).value;
    SubmitWaits(s2, c, n3);
    var s3 := Step(s2, SubmitReport(c, n3)).value;
    assert s2.manager.queue == [b] && s3.manager.queue == [b, c];
    PlaceOfOnly(s2.manager, b);
    PlacesOfTwo(s3.manager, b, c);
  }

  /** The report a worker ran ends in its terminal status; rows it did not touch stay as they were. */
  lemma RanReportEnds(s: System, w: nat, a: nat, c: nat, outcome: CallOutcome, now: Tick, started: Tick)
    requires SInv(s) && w in s.manager.busy && s.manager.busy[w] == a && s.manager.queue != []
    requires HasStatus(s.db, c, Waiting) && c != a && c != s.manager.queue[0]
    ensures Step(s, WorkerDone(w, outcome, now, started)).Some?
    ensures var s' := Step(s, WorkerDone(w, outcome, now, started)).value;
      && SInv(s')
      && HasStatus(s'.db, a, if outcome.Responded? then Completed else Error)
      && s'.db.reports[a].endedAt == Some(now)
      && HasStatus(s'.db, c, Waiting)
      && (outcome.Failed? ==> s'.db.logs == s.db.logs + [LogRow(a, outcome.error)])
  {
    CompletePreservesSInv(s, w, outcome, now, started);
    var s' := Step(s, WorkerDone(w, outcome, now, started)).value;
    assert SameRow(s.db, s'.db, c);
  }

  /** Step 4: the running report completes; the head of the queue takes its worker. */
  lemma HeadTakesOver(s: System, w: nat, a: nat, b: nat, c: nat, outcome: CallOutcome, now: Tick, started: Tick)
    requires SInv(s) && w in s.manager.busy && s.manager.busy[w] == a && s.manager.queue == [b, c]
    requires HasStatus(s.db, c, Waiting) && a != c && b != c
    ensures Step(s, WorkerDone(w, outcome, now, started)).Some?
    ensures var s' := Step(s, WorkerDone(w, outcome, now, started)).value;
      && SInv(s')
      && HasStatus(s'.db, a, if outcome.Responded? then Completed else Error)
      && HasStatus(s'.db, b, InProcess)
      && HasStatus(s'.db, c, Waiting)
      && s'.db.reports[a].endedAt == Some(now) && s'.db.reports[b].startedAt == Some(started)
      && w in s'.manager.busy && s'.manager.busy[w] == b && s'.manager.queue == [c]
      && GetQueuePlace(s'.manager, c) == Success(1)
      && (outcome.Failed? ==> s'.db.logs == s.db.logs + [LogRow(a, outcome.error)])
  {
    RanReportEnds(s, w, a, c, outcome, now, started);
    CompleteHandsOver(s, w, outcome, now, started);
    var s' := Step(s, WorkerDone(w, outcome, now, started)).value;
    assert s'.manager.queue == [b, c][1..] == [c];
    PlaceOfOnly(s'.manager, c);
  }

  /** Step 5: the last report takes the worker and leaves the queue. */
  lemma LastTakesOver(s: System, w: nat, b: nat, c: nat, outcome: CallOutcome, now: Tick, started: Tick)
    requires SInv(s) && w in s.manager.busy && s.manager.busy[w] == b && s.manager.queue == [c]
    ensures Step(s, WorkerDone(w, outcome, now, started)).Some?
    ensures var s' := Step(s, WorkerDone(w, outcome, now, started)).value;
      && SInv(s')
      && HasStatus(s'.db, b, if outcome.Responded? then Completed else Error)
      && HasStatus(s'.db, c, InProcess)
      && w in s'.manager.busy && s'.manager.busy[w] == c && s'.manager.queue == []
      && GetQueuePlace(s'.manager, c) == Failure(ReportNotInCalculationQueue(c))
      && (outcome.Failed? ==> s'.db.logs == s.db.logs + [LogRow(b, outcome.error)])
  {
    CompletePreservesSInv(s, w, outcome, now, started);
    CompleteHandsOver(s, w, outcome, now, started);
    var s' := Step(s, WorkerDone(w, outcome, now, started)).value;
    assert s'.manager.queue == [c][1..] == [];
  }

  /**
    One host with one worker; reports A, B, C submitted in that order. A is
    IN_PROCESS at once, B waits at place 1 and C at place 2. When A's service
    call responds, A is COMPLETED, B is IN_PROCESS and C moves to place 1.
    When B's call fails, B is ERROR with one log row, C is IN_PROCESS and no
    longer has a queue place.
  */
  lemma OneWorkerScenario(s0: System, a: nat, b: nat, c: nat, n1: Tick, n2: Tick, n3: Tick,
                          n4: Tick, n5: Tick, n6: Tick, n7: Tick, response: ModelResponse, error: string)
    requires SInv(s0) && |s0.manager.workers| == 1 && s0.manager.busy == map[]
    requires a != b && b != c && a != c
    requires HasStatus(s0.db, a, Waiting) && HasStatus(s0.db, b, Waiting) && HasStatus(s0.db, c, Waiting)
    ensures Step(s0, SubmitReport(a, n1)).Some?
    ensures var s1 := Step(s0, SubmitReport(a, n1)).value;
      && HasStatus(s1.db, a, InProcess)
      && Step(s1, SubmitReport(b, n2)).Some?
      && var s2 := Step(s1, SubmitReport(b, n2)).value;
      && GetQueuePlace(s2.manager, b) == Success(1)
      && Step(s2, SubmitReport(c, n3)).Some?
      && var s3 := Step(s2, SubmitReport(c, n3)).value;
      && GetQueuePlace(s3.manager, b) == Success(1)
      && GetQueuePlace(s3.manager, c) == Success(2)
      && var w := s0.manager.free[0];
      && Step(s3, WorkerDone(w, Responded(response), n4, n5)).Some?
      && var s4 := Step(s3, WorkerDone(w, Responded(response), n4, n5)).value;
      && HasStatus(s4.db, a, Completed)
      && HasStatus(s4.db, b, InProcess)
      && GetQueuePlace(s4.manager, c) == Success(1)
      && Step(s4, WorkerDone(w, Failed(error), n6, n7)).Some?
      && var s5 := Step(s4, WorkerDone(w, Failed(error), n6, n7)).value;
      && HasStatus(s5.db, b, Error)
      && s5.db.logs == s4.db.logs + [LogRow(b, error)]
      && HasStatus(s5.db, c, InProcess)
      && GetQueuePlace(s5.manager, c).Failure?
  {
    SoleWorkerIdle(s0.manager);
    var w := s0.manager.free[0];
    FirstRuns(s0, a, b, c, n1);
    var s1 := Step(s0, SubmitReport(a, n1)).value;
    OthersWait(s1, b, c, n2, n3);
    var s2 := Step(s1, SubmitReport(b, n2)).value;
    var s3 := Step(s2, SubmitReport(c, n3)).value;
    HeadTakesOver(s3, w, a, b, c, Responded(response), n4, n5);
    var s4 := Step(s3, WorkerDone(w, Responded(response), n4, n5)).value;
    LastTakesOver(s4, w, b, c, Failed(error), n6, n7);
  }
}
