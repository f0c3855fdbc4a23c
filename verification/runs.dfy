/**
  Sequences of scheduler events: reports submitted to `calculate` and running
  workers calling back into `_release_work`. Over any such run the manager
  starts reports in exactly the order they were submitted, and every thread it
  starts is either still running or has called back exactly once.
*/
module Runs {
  import opened Wrappers
  import opened Scheduler

  /**
    A scheduler event: a report handed to `calculate`, or the thread on a
    worker finishing and invoking its finish callback.
  */
  datatype Event = Submit(report: ReportId) | Done(worker: nat)

  /** What a run did: the final state, the threads started and the threads that called back, in order. */
  datatype Trace = Trace(final: Manager, started: seq<Spawn>, finished: seq<Spawn>)

  /** The threads currently running, as (worker, report) pairs. */
  function Running(busy: map<nat, ReportId>): (r: set<Spawn>)
    ensures forall x :: x in r <==> x.worker in busy && busy[x.worker] == x.report
  {
    set w | w in busy :: Spawn(w, busy[w])
  }

  /** The thread started by a transition, as a list of zero or one. */
  function Started(t: Transition): seq<Spawn> {
    if t.spawned.Some? then [t.spawned.value] else []
  }

  /** The reports of a list of threads, in order. */
  function ReportsOf(spawns: seq<Spawn>): seq<ReportId> {
    if spawns == [] then [] else [spawns[0].report] + ReportsOf(spawns[1..])
  }

  /** The reports submitted by a list of events, in order. */
  function Submitted(events: seq<Event>): seq<ReportId> {
    if events == [] then []
    else (if events[0].Submit? then [events[0].report] else []) + Submitted(events[1..])
  }

  /**
    One event. A callback can only come from a worker whose thread is running,
    so `Done` on any other worker is not a possible event (`None`).
  */
  function Step(m: Manager, e: Event): (r: Option<Transition>)
    ensures e.Submit? ==> r.Some?
    ensures e.Done? ==> (r.Some? <==> e.worker in m.busy && e.worker in m.workers)
    ensures r.Some? ==> r.value.after.workers == m.workers
  {
    match e
    case Submit(r) => Some(Calculate(m, r))
    case Done(w) =>
      if w !in m.busy then None
      else
        match Release(m, w)
        case Success(t) => Some(t)
        case Failure(_) => None
  }

  /** The thread that finishes in an event, if any. */
  function Finished(m: Manager, e: Event): seq<Spawn> {
    if e.Done? && e.worker in m.busy then [Spawn(e.worker, m.busy[e.worker])] else []
  }

  /**
    A run of events from `m`; `None` if some event is not possible where it
    occurs. No run changes the pool, and each event starts and finishes at
    most one thread.
  */
  function Run(m: Manager, events: seq<Event>): (r: Option<Trace>)
    ensures r.Some? ==> r.value.final.workers == m.workers
    ensures r.Some? ==> |r.value.started| <= |events| && |r.value.finished| <= |events|
    decreases |events|
  {
    if events == [] then Some(Trace(m, [], []))
    else
      match Step(m, events[0])
      case None => None
      case Some(t) =>
        match Run(t.after, events[1..])
        case None => None
        case Some(rest) =>
          Some(Trace(rest.final, Started(t) + rest.started, Finished(m, events[0]) + rest.finished))
  }

  lemma {:induction false} ReportsOfSplit(a: seq<Spawn>, b: seq<Spawn>)
    ensures ReportsOf(a + b) == ReportsOf(a) + ReportsOf(b)
  {
    if a == [] {
      assert a + b == b;
    } else {
      assert (a + b)[1..] == a[1..] + b;
      ReportsOfSplit(a[1..], b);
    }
  }

  /** Adding a pair not yet present adds exactly one copy of it. */
  lemma MultisetAddFresh(a: set<Spawn>, x: Spawn)
    requires x !in a
    ensures multiset(a + {x}) == multiset(a) + multiset{x}
  {
    assert (a + {x}) - {x} == a;
  }

  /** A worker that was free starts a thread: one more running pair. */
  lemma RunningAdd(busy: map<nat, ReportId>, w: nat, r: ReportId)
    requires w !in busy
    ensures multiset(Running(busy[w := r])) == multiset(Running(busy)) + multiset{Spawn(w, r)}
  {
    assert Running(busy[w := r]) == Running(busy) + {Spawn(w, r)};
    MultisetAddFresh(Running(busy), Spawn(w, r));
  }

  /** A running worker calls back: its pair is no longer running. */
  lemma RunningRemove(busy: map<nat, ReportId>, w: nat)
    requires w in busy
    ensures multiset(Running(busy)) == multiset(Running(busy - {w})) + multiset{Spawn(w, busy[w])}
  {
    var x := Spawn(w, busy[w]);
    assert Running(busy) == Running(busy - {w}) + {x};
    MultisetAddFresh(Running(busy - {w}), x);
  }

  /** A running worker calls back and at once takes another report. */
  lemma RunningReplace(busy: map<nat, ReportId>, w: nat, r: ReportId)
    requires w in busy
    ensures multiset(Running(busy)) + multiset{Spawn(w, r)}
         == multiset(Running(busy[w := r])) + multiset{Spawn(w, busy[w])}
  {
    RunningRemove(busy, w);
    assert busy[w := r] == (busy - {w})[w := r];
    RunningAdd(busy - {w}, w, r);
  }

  /** `calculate` as an event: see `StepAccounts`. */
  lemma SubmitAccounts(m: Manager, r: ReportId)
    requires Inv(m)
    ensures var t := Calculate(m, r);
      && Inv(t.after)
      && ReportsOf(Started(t)) + t.after.queue == m.queue + [r]
      && multiset(Started(t)) + multiset(Running(m.busy)) == multiset(Running(t.after.busy))
  {
    var t := Calculate(m, r);
    CalculatePreservesInv(m, r);
    if m.free != [] {
      var w := m.free[0];
      assert w in Elems(m.free);
      RunningAdd(m.busy, w, r);
      assert ReportsOf([Spawn(w, r)]) == [r];
    }
  }

  /** A callback with nothing waiting: the thread ends and starts nothing. */
  lemma DoneIdleAccounts(m: Manager, w: nat)
    requires Inv(m) && w in m.busy && m.queue == []
    ensures Release(m, w).Success?
    ensures var t := Release(m, w).value;
      && Started(t) == [] && t.after.queue == []
      && multiset(Running(m.busy)) == multiset{Spawn(w, m.busy[w])} + multiset(Running(t.after.busy))
  {
    ReleaseIdles(m, w);
    RunningRemove(m.busy, w);
  }

  /** A callback with reports waiting: the thread ends and the head starts on the same worker. */
  lemma DoneHandOverAccounts(m: Manager, w: nat)
    requires Inv(m) && w in m.busy && m.queue != []
    ensures Release(m, w).Success?
    ensures var t := Release(m, w).value;
      && ReportsOf(Started(t)) + t.after.queue == m.queue
      && multiset(Started(t)) + multiset(Running(m.busy))
         == multiset{Spawn(w, m.busy[w])} + multiset(Running(t.after.busy))
  {
    ReleaseHandsOverHead(m, w);
    var head := m.queue[0];
    RunningReplace(m.busy, w, head);
    assert ReportsOf([Spawn(w, head)]) == [head];
  }

  /** A callback as an event: see `StepAccounts`. */
  lemma DoneAccounts(m: Manager, w: nat)
    requires Inv(m) && w in m.busy
    ensures Release(m, w).Success?
    ensures var t := Release(m, w).value;
      && Inv(t.after)
      && ReportsOf(Started(t)) + t.after.queue == m.queue
      && multiset(Started(t)) + multiset(Running(m.busy))
         == multiset{Spawn(w, m.busy[w])} + multiset(Running(t.after.busy))
  {
    ReleasePreservesInv(m, w);
    if m.queue == [] {
      DoneIdleAccounts(m, w);
    } else {
      DoneHandOverAccounts(m, w);
    }
  }

  /** `StepAccounts` for a submission. */
  lemma SubmitStepAccounts(m: Manager, r: ReportId)
    requires Inv(m)
    ensures var t := Step(m, Submit(r)).value;
      && Inv(t.after)
      && ReportsOf(Started(t)) + t.after.queue == m.queue + [r]
      && multiset(Started(t)) + multiset(Running(m.busy))
         == multiset(Finished(m, Submit(r))) + multiset(Running(t.after.busy))
  {
    assert Finished(m, Submit(r)) == [];
    SubmitAccounts(m, r);
  }

  /** `StepAccounts` for a callback. */
  lemma DoneStepAccounts(m: Manager, w: nat)
    requires Inv(m) && w in m.busy
    ensures Step(m, Done(w)).Some?
    ensures var t := Step(m, Done(w)).value;
      && Inv(t.after)
      && ReportsOf(Started(t)) + t.after.queue == m.queue
      && multiset(Started(t)) + multiset(Running(m.busy))
         == multiset(Finished(m, Done(w))) + multiset(Running(t.after.busy))
  {
    DoneAccounts(m, w);
    assert multiset(Finished(m, Done(w))) == multiset{Spawn(w, m.busy[w])};
  }

  /**
    One possible event keeps the scheduling invariant, takes a report off the
    queue only by starting it, and starts or finishes threads so that started
    plus already running equals finished plus still running.
  */
  lemma StepAccounts(m: Manager, e: Event)
    requires Inv(m) && Step(m, e).Some?
    ensures var t := Step(m, e).value;
      && Inv(t.after)
      && ReportsOf(Started(t)) + t.after.queue == m.queue + Submitted([e])
      && multiset(Started(t)) + multiset(Running(m.busy))
         == multiset(Finished(m, e)) + multiset(Running(t.after.busy))
  {
    assert Submitted([e]) == if e.Submit? then [e.report] else [] by {
      assert [e][1..] == [];
    }
    match e
    case Submit(r) =>
      SubmitStepAccounts(m, r);
    case Done(w) =>
      DoneStepAccounts(m, w);
  }

  /**
    FIFO over a whole run: the reports started, followed by the reports still
    waiting, are exactly the reports that were waiting followed by the reports
    submitted. So reports leave the queue in the order they joined it, and the
    queue never reorders.
  */
  lemma {:induction false} RunKeepsOrder(m: Manager, events: seq<Event>)
    requires Inv(m) && Run(m, events).Some?
    ensures Inv(Run(m, events).value.final)
    ensures InOrder(m, events, Run(m, events).value)
    decreases |events|
  {
    if events != [] {
      var e := events[0];
      var t := Step(m, e).value;
      var rest := Run(t.after, events[1..]).value;
      var tr := Trace(rest.final, Started(t) + rest.started, Finished(m, e) + rest.finished);
      assert Run(m, events).value == tr;
      StepAccounts(m, e);
      RunKeepsOrder(t.after, events[1..]);
      ReportsOfSplit(Started(t), rest.started);
      assert events == [e] + events[1..];
      SubmittedSplit([e], events[1..]);
      SeqChain(ReportsOf(Started(t)), ReportsOf(rest.started), t.after.queue, rest.final.queue,
               m.queue, Submitted([e]), Submitted(events[1..]));
      assert InOrder(m, events, tr);
    }
  }

  /** Two consecutive balances compose. */
  lemma MultisetChain<T>(s1: multiset<T>, s2: multiset<T>, r0: multiset<T>, f1: multiset<T>, f2: multiset<T>,
                         r1: multiset<T>, r2: multiset<T>)
    requires s1 + r0 == f1 + r1
    requires s2 + r1 == f2 + r2
    ensures (s1 + s2) + r0 == (f1 + f2) + r2
  {
    calc {
      (s1 + s2) + r0;
      s2 + (s1 + r0);
      s2 + (f1 + r1);
      f1 + (s2 + r1);
      f1 + (f2 + r2);
    }
  }

  /** Two consecutive queue accountings compose. */
  lemma SeqChain<T>(s1: seq<T>, s2: seq<T>, q1: seq<T>, q2: seq<T>, q0: seq<T>, a1: seq<T>, a2: seq<T>)
    requires s1 + q1 == q0 + a1
    requires s2 + q2 == q1 + a2
    ensures (s1 + s2) + q2 == q0 + (a1 + a2)
  {
    calc {
      (s1 + s2) + q2;
      s1 + (s2 + q2);
      s1 + (q1 + a2);
      (s1 + q1) + a2;
      (q0 + a1) + a2;
    }
  }

  /** Started plus initially running threads equal finished plus finally running ones. */
  predicate Balanced(m: Manager, tr: Trace) {
    multiset(tr.started) + multiset(Running(m.busy)) == multiset(tr.finished) + multiset(Running(tr.final.busy))
  }

  /** The reports started and then still waiting are those waiting at first and then submitted. */
  predicate InOrder(m: Manager, events: seq<Event>, tr: Trace) {
    ReportsOf(tr.started) + tr.final.queue == m.queue + Submitted(events)
  }

  /**
    Every thread a run starts is matched by exactly one callback, unless it is
    still running: the threads started plus those running at the outset are,
    as a multiset, the threads that called back plus those running at the end.
  */
  lemma {:induction false} RunBalances(m: Manager, events: seq<Event>)
    requires Inv(m) && Run(m, events).Some?
    ensures Balanced(m, Run(m, events).value)
    decreases |events|
  {
    if events != [] {
      var e := events[0];
      var t := Step(m, e).value;
      var rest := Run(t.after, events[1..]).value;
      var tr := Trace(rest.final, Started(t) + rest.started, Finished(m, e) + rest.finished);
      assert Run(m, events).value == tr;
      StepAccounts(m, e);
      RunBalances(t.after, events[1..]);
      MultisetChain(multiset(Started(t)), multiset(rest.started), multiset(Running(m.busy)),
                    multiset(Finished(m, e)), multiset(rest.finished),
                    multiset(Running(t.after.busy)), multiset(Running(rest.final.busy)));
      assert Balanced(m, tr);
    }
  }

  lemma {:induction false} SubmittedSplit(a: seq<Event>, b: seq<Event>)
    ensures Submitted(a + b) == Submitted(a) + Submitted(b)
  {
    if a == [] {
      assert a + b == b;
    } else {
      var head := if a[0].Submit? then [a[0].report] else [];
      assert (a + b)[0] == a[0];
      assert (a + b)[1..] == a[1..] + b;
      assert Submitted(a + b) == head + Submitted(a[1..] + b);
      assert Submitted(a) == head + Submitted(a[1..]);
      SubmittedSplit(a[1..], b);
    }
  }

  /**
    From a freshly built manager, reports start in submission order: the
    started reports are a prefix of the submitted ones and the queue holds the
    rest, in order; and each started thread has called back exactly once or is
    still running.
  */
  lemma FifoFromFresh(m: Manager, events: seq<Event>)
    requires Inv(m) && m.queue == [] && m.busy == map[]
    requires Run(m, events).Some?
    ensures var tr := Run(m, events).value;
      && var subs := Submitted(events);
      && |ReportsOf(tr.started)| <= |subs|
      && ReportsOf(tr.started) == subs[..|ReportsOf(tr.started)|]
      && tr.final.queue == subs[|ReportsOf(tr.started)|..]
      && multiset(tr.started) == multiset(tr.finished) + multiset(Running(tr.final.busy))
  {
    RunKeepsOrder(m, events);
    RunBalances(m, events);
    assert Running(m.busy) == {};
    var tr := Run(m, events).value;
    assert ReportsOf(tr.started) + tr.final.queue == Submitted(events);
  }

  /** Submitting every report of a list, in order. */
  function Submits(reports: seq<ReportId>): (events: seq<Event>) {
    seq(|reports|, i requires 0 <= i < |reports| => Submit(reports[i]))
  }

  /**
    Submitting reports with nothing finishing: the first `|free|` reports start
    at once, in order, on the free workers in free-list order, and the rest wait
    in order. In particular, as long as no more reports are submitted than there
    are free workers, nothing waits.
  */
  lemma {:induction false} SubmitsFillFreeWorkers(m: Manager, reports: seq<ReportId>)
    requires Inv(m) && m.queue == []
    ensures Run(m, Submits(reports)).Some?
    ensures var tr := Run(m, Submits(reports)).value;
      var k := if |reports| <= |m.free| then |reports| else |m.free|;
      && |tr.started| == k
      && (forall i :: 0 <= i < k ==> tr.started[i] == Spawn(m.free[i], reports[i]))
      && tr.final.queue == reports[k..]
      && tr.finished == []
    decreases |reports|
  {
    if reports != [] {
      var r0 := reports[0];
      var t := Calculate(m, r0);
      var events := Submits(reports);
      assert events[0] == Submit(r0) && events[1..] == Submits(reports[1..]);
      if m.free == [] {
        QueueOnlySubmits(m, reports);
      } else {
        CalculatePreservesInv(m, r0);
        SubmitsFillFreeWorkers(t.after, reports[1..]);
        StartOnFree(m, reports);
      }
    }
  }

  /** The first of several submissions onto a free worker, and the run that follows it. */
  lemma StartOnFree(m: Manager, reports: seq<ReportId>)
    requires Inv(m) && m.queue == [] && m.free != [] && reports != []
    requires Run(Calculate(m, reports[0]).after, Submits(reports[1..])).Some?
    ensures Run(m, Submits(reports)).Some?
    ensures var rest := Run(Calculate(m, reports[0]).after, Submits(reports[1..])).value;
      Run(m, Submits(reports)).value == Trace(rest.final, [Spawn(m.free[0], reports[0])] + rest.started, rest.finished)
    ensures Calculate(m, reports[0]).after.free == m.free[1..]
    ensures Calculate(m, reports[0]).after.queue == []
  {
    var events := Submits(reports);
    assert events[0] == Submit(reports[0]) && events[1..] == Submits(reports[1..]);
    assert Finished(m, events[0]) == [];
  }

  /** The first of several submissions with no free worker, and the run that follows it. */
  lemma QueueOne(m: Manager, reports: seq<ReportId>)
    requires m.free == [] && reports != []
    requires Run(Calculate(m, reports[0]).after, Submits(reports[1..])).Some?
    ensures Run(m, Submits(reports)).Some?
    ensures var rest := Run(Calculate(m, reports[0]).after, Submits(reports[1..])).value;
      var tr := Run(m, Submits(reports)).value;
      tr.final == rest.final && tr.started == rest.started && tr.finished == rest.finished
    ensures Calculate(m, reports[0]).after.free == []
    ensures Calculate(m, reports[0]).after.queue == m.queue + [reports[0]]
  {
    var events := Submits(reports);
    assert events[0] == Submit(reports[0]) && events[1..] == Submits(reports[1..]);
    assert Finished(m, events[0]) == [];
  }

  /** With no free worker, submitted reports only join the queue, in order. */
  lemma {:induction false} QueueOnlySubmits(m: Manager, reports: seq<ReportId>)
    requires m.free == []
    ensures Run(m, Submits(reports)).Some?
    ensures var tr := Run(m, Submits(reports)).value;
      tr.started == [] && tr.finished == [] && tr.final.queue == m.queue + reports && tr.final.free == []
    decreases |reports|
  {
    if reports != [] {
      var t := Calculate(m, reports[0]);
      QueueOnlySubmits(t.after, reports[1..]);
      QueueOne(m, reports);
      AppendHeadThenTail(m.queue, reports);
    }
  }

  /** Appending a list's head and then its tail appends the whole list. */
  lemma AppendHeadThenTail(q: seq<ReportId>, reports: seq<ReportId>)
    requires reports != []
    ensures (q + [reports[0]]) + reports[1..] == q + reports
  {
    assert [reports[0]] + reports[1..] == reports;
  }

  /**
    Two waiting reports keep their relative places through any possible
    event, as long as the one ahead is not the one a callback starts.
  */
  lemma StepKeepsQueueOrder(m: Manager, e: Event, a: ReportId, b: ReportId)
    requires Inv(m) && Step(m, e).Some?
    requires GetQueuePlace(m, a).Success? && GetQueuePlace(m, b).Success?
    requires GetQueuePlace(m, a).value < GetQueuePlace(m, b).value
    requires e.Done? ==> a != m.queue[0]
    ensures var after := Step(m, e).value.after;
      && GetQueuePlace(after, a).Success? && GetQueuePlace(after, b).Success?
      && GetQueuePlace(after, a).value < GetQueuePlace(after, b).value
  {
    match e
    case Submit(r) =>
      CalculatePlaces(m, r);
    case Done(w) =>
      assert b != m.queue[0];
      ReleaseHandsOverHead(m, w);
  }
}
