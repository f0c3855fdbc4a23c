/**
  `ReportCalculationManager`: a fixed pool of workers, an ordered list of free
  workers and a FIFO queue of waiting reports. Spawning a thread for a report
  is modelled as an atomic step that marks the worker busy with that report and
  is returned as a `Spawn`; the thread's own work is the `Worker` module.
*/
module Scheduler {
  import opened Wrappers
  import opened Worker

  /** A report, as the queue knows it: by primary key. */
  type ReportId = nat

  /**
    The manager's state. `workers`, `queue` and `free` are the source's three
    fields; `busy` records which worker's thread is running which report.
  */
  datatype Manager = Manager(
    workers: map<nat, Handle>,
    queue: seq<ReportId>,
    free: seq<nat>,
    busy: map<nat, ReportId>)

  /** A thread started for `report` on `worker`. */
  datatype Spawn = Spawn(worker: nat, report: ReportId)

  /** The state after an operation, and the thread it started, if any. */
  datatype Transition = Transition(after: Manager, spawned: Option<Spawn>)

  /** `ReportNotInCalculationQueue`, carrying the id from its message. */
  datatype QueueError = ReportNotInCalculationQueue(reportId: ReportId)

  /** The `KeyError` of looking up a worker id the pool does not have. */
  datatype ReleaseError = UnknownWorker(workerId: nat)

  /** No element occurs twice. */
  predicate NoDup(s: seq<nat>) {
    forall i, j :: 0 <= i < j < |s| ==> s[i] != s[j]
  }

  /** The elements of a sequence. */
  function Elems(s: seq<nat>): set<nat> {
    set x | x in s
  }

  /** A duplicate-free sequence has as many distinct elements as entries. */
  lemma {:induction false} NoDupCard(s: seq<nat>)
    requires NoDup(s)
    ensures |Elems(s)| == |s|
  {
    if s != [] {
      assert Elems(s) == {s[0]} + Elems(s[1..]);
      assert s[0] !in Elems(s[1..]);
      NoDupCard(s[1..]);
    } else {
      assert Elems(s) == {};
    }
  }

  // ---------------------------------------------------------------------------
  // Construction
  // ---------------------------------------------------------------------------

  /**
    The pool built from `hosts` with `perHost` workers each: ids `0 .. n-1`
    with `n = |hosts| * perHost`, and worker `i` bound to host `i / perHost`,
    so each host gets a run of `perHost` consecutive ids, in host order.
  */
  ghost predicate BuiltFrom(workers: map<nat, Handle>, hosts: seq<string>, perHost: nat) {
    && IdsBelow(workers.Keys, |hosts| * perHost)
    && forall i :: i in workers ==>
         0 < perHost && i / perHost < |hosts| && workers[i] == Handle(i, hosts[i / perHost])
  }

  /** The set holds exactly the ids `0 .. n-1`. */
  ghost predicate IdsBelow(ids: set<nat>, n: nat) {
    forall i: nat :: i in ids <==> i < n
  }

  /** A positive multiple of `k` is at least `k`. */
  lemma {:induction false} MultipleAtLeast(d: nat, k: nat)
    requires d >= 1
    ensures d * k >= k
  {
    if d > 1 {
      MultipleAtLeast(d - 1, k);
      assert d * k == (d - 1) * k + k;
    }
  }

  /** The id `h * k + j` with `j < k` lies in block `h`. */
  lemma BlockOf(h: nat, j: nat, k: nat)
    requires j < k
    ensures (h * k + j) / k == h
  {
    var x := h * k + j;
    var q := x / k;
    var r := x % k;
    assert q * k + r == x;
    assert (q - h) * k == j - r;
    if q > h {
      MultipleAtLeast(q - h, k);
      assert false;
    } else if q < h {
      MultipleAtLeast(h - q, k);
      assert false;
    }
  }

  /** How many values `range(n)` yields: none for a negative or zero `n`. */
  function RangeLength(n: int): (k: nat)
    ensures n <= 0 ==> k == 0
    ensures n > 0 ==> k == n
  {
    if n < 0 then 0 else n
  }

  /**
    `__build_workers`: for each host in order, as many workers with consecutive
    ids as `range(workersByModel)` yields.
  */
  method BuildWorkers(hosts: seq<string>, workersByModel: int) returns (workers: map<nat, Handle>)
    ensures BuiltFrom(workers, hosts, RangeLength(workersByModel))
    ensures workersByModel <= 0 ==> workers == map[]
  {
    var perHost := RangeLength(workersByModel);
    workers := map[];
    var workerId := 0;
    var h := 0;
    while h < |hosts|
      invariant h <= |hosts|
      invariant workerId == h * perHost
      invariant IdsBelow(workers.Keys, workerId)
      invariant forall i :: i in workers ==>
        0 < perHost && i / perHost < h && workers[i] == Handle(i, hosts[i / perHost])
    {
      var j := 0;
      while j < perHost
        invariant j <= perHost
        invariant workerId == h * perHost + j
        invariant IdsBelow(workers.Keys, workerId)
        invariant forall i :: i in workers ==>
          0 < perHost && i / perHost <= h && workers[i] == Handle(i, hosts[i / perHost])
      {
        BlockOf(h, j, perHost);
        workers := workers[workerId := Handle(workerId, hosts[h])];
        workerId := workerId + 1;
        j := j + 1;
      }
      h := h + 1;
    }
  }

  // ---------------------------------------------------------------------------
  // The scheduling invariant
  // ---------------------------------------------------------------------------

  /**
    Every worker is either free or busy, never both, and never listed twice
    as free; each worker sits under its own id; and a report waits only while
    no worker is free.
  */
  predicate Inv(m: Manager) {
    && (forall w :: w in m.workers ==> m.workers[w].id == w)
    && NoDup(m.free)
    && Elems(m.free) !! m.busy.Keys
    && Elems(m.free) + m.busy.Keys == m.workers.Keys
    && (m.queue != [] ==> m.free == [])
  }

  /** Free and busy workers together always number the whole pool. */
  lemma PoolConserved(m: Manager)
    requires Inv(m)
    ensures |m.free| + |m.busy| == |m.workers|
  {
    NoDupCard(m.free);
    assert |Elems(m.free) + m.busy.Keys| == |Elems(m.free)| + |m.busy.Keys|;
  }

  /**
    `__init__`: build the pool, start with an empty queue and every worker
    free, in id order.
  */
  method Init(hosts: seq<string>, workersByModel: int) returns (m: Manager)
    ensures BuiltFrom(m.workers, hosts, RangeLength(workersByModel))
    ensures m.queue == [] && m.busy == map[]
    ensures |m.free| == |hosts| * RangeLength(workersByModel)
    ensures forall i :: 0 <= i < |m.free| ==> m.free[i] == i
    ensures Inv(m)
  {
    var perHost := RangeLength(workersByModel);
    var workers := BuildWorkers(hosts, workersByModel);
    var free := seq(|hosts| * perHost, i => i);
    assert Elems(free) == workers.Keys by {
      forall x | x in workers.Keys ensures x in Elems(free) {
        assert free[x] == x;
      }
    }
    m := Manager(workers, [], free, map[]);
  }

  // ---------------------------------------------------------------------------
  // Operations
  // ---------------------------------------------------------------------------

  /**
    `calculate`: with a free worker, pop the head of the free list and start
    the report on it, leaving the queue alone; with none, append the report at
    the tail of the queue and change nothing else.
  */
  function Calculate(m: Manager, report: ReportId): (t: Transition)
    ensures t.after.workers == m.workers
    ensures m.free != [] ==>
      && t.spawned == Some(Spawn(m.free[0], report))
      && [m.free[0]] + t.after.free == m.free
      && t.after.busy == m.busy[m.free[0] := report]
      && t.after.queue == m.queue
    ensures m.free == [] ==>
      && t.spawned.None?
      && t.after.queue == m.queue + [report]
      && t.after.free == m.free && t.after.busy == m.busy
  {
    if m.free != [] then
      var worker := m.free[0];
      Transition(m.(free := m.free[1..], busy := m.busy[worker := report]), Some(Spawn(worker, report)))
    else
      Transition(m.(queue := m.queue + [report]), None)
  }

  /** The first index of `id` in `q`, if any (`list.index`). */
  function IndexOf(q: seq<ReportId>, id: ReportId): (r: Option<nat>)
    ensures r.Some? ==> r.value < |q| && q[r.value] == id
    ensures r.Some? ==> forall j :: 0 <= j < r.value ==> q[j] != id
    ensures r.None? <==> id !in q
  {
    if q == [] then None
    else if q[0] == id then Some(0)
    else
      match IndexOf(q[1..], id)
      case None => None
      case Some(k) => Some(k + 1)
  }

  /**
    `get_queue_place`: the 1-based place of the first queue entry holding
    `id`, or the typed not-in-queue signal exactly when no entry holds it.
  */
  function GetQueuePlace(m: Manager, id: ReportId): (r: Result<nat, QueueError>)
    ensures r.Success? ==> 1 <= r.value <= |m.queue| && m.queue[r.value - 1] == id
    ensures r.Success? ==> forall j :: 0 <= j < r.value - 1 ==> m.queue[j] != id
    ensures r.Failure? <==> id !in m.queue
    ensures r.Failure? ==> r.error == ReportNotInCalculationQueue(id)
  {
    match IndexOf(m.queue, id)
    case None => Failure(ReportNotInCalculationQueue(id))
    case Some(k) => Success(k + 1)
  }

  /**
    `_release_work`: append the worker to the free list, then, if a report is
    waiting, pop the head of the queue and `calculate` it. An id outside the
    pool fails before anything changes.
  */
  function Release(m: Manager, w: nat): (r: Result<Transition, ReleaseError>)
    ensures r.Failure? <==> w !in m.workers
    ensures r.Failure? ==> r.error == UnknownWorker(w)
    ensures r.Success? ==> r.value.after.workers == m.workers
  {
    if w !in m.workers then Failure(UnknownWorker(w))
    else
      var returned := m.(free := m.free + [w], busy := m.busy - {w});
      if returned.queue == [] then Success(Transition(returned, None))
      else Success(Calculate(returned.(queue := returned.queue[1..]), returned.queue[0]))
  }

  // ---------------------------------------------------------------------------
  // Properties of single operations
  // ---------------------------------------------------------------------------

  /** `calculate` keeps the scheduling invariant. */
  lemma CalculatePreservesInv(m: Manager, report: ReportId)
    requires Inv(m)
    ensures Inv(Calculate(m, report).after)
  {
    var a := Calculate(m, report).after;
    if m.free != [] {
      assert Elems(m.free) == {m.free[0]} + Elems(a.free);
      assert m.free[0] !in Elems(a.free);
    }
  }

  /**
    `calculate` and the queue places: a report started at once is not queued;
    a report that has to wait takes the place after the last one (or keeps its
    earlier place if it was already queued); every report already waiting
    keeps its place.
  */
  lemma CalculatePlaces(m: Manager, report: ReportId)
    requires Inv(m)
    ensures var a := Calculate(m, report).after;
      && (m.free != [] ==> GetQueuePlace(a, report).Failure?)
      && (m.free == [] && report !in m.queue ==> GetQueuePlace(a, report) == Success(|m.queue| + 1))
      && forall id :: id in m.queue ==> GetQueuePlace(a, id) == GetQueuePlace(m, id)
  {
    var a := Calculate(m, report).after;
    if m.free == [] {
      forall id | id in m.queue
        ensures GetQueuePlace(a, id) == GetQueuePlace(m, id)
      {
        var k := IndexOf(m.queue, id).value;
        IndexOfPrefix(m.queue, [report], id);
      }
      if report !in m.queue {
        IndexOfAppended(m.queue, report);
      }
    }
  }

  /** Appending to a sequence does not move an element that is already in it. */
  lemma {:induction false} IndexOfPrefix(q: seq<ReportId>, tail: seq<ReportId>, id: ReportId)
    requires id in q
    ensures IndexOf(q + tail, id) == IndexOf(q, id)
  {
    assert (q + tail)[0] == q[0];
    if q[0] != id {
      assert (q + tail)[1..] == q[1..] + tail;
      IndexOfPrefix(q[1..], tail, id);
    }
  }

  /** A new element appended at the tail is found at the last index. */
  lemma IndexOfAppended(q: seq<ReportId>, id: ReportId)
    requires id !in q
    ensures IndexOf(q + [id], id) == Some(|q|)
  {
    var r := IndexOf(q + [id], id);
    assert (q + [id])[|q|] == id;
  }

  /**
    `_release_work` for a running worker keeps the scheduling invariant.
  */
  lemma ReleasePreservesInv(m: Manager, w: nat)
    requires Inv(m) && w in m.busy
    ensures Release(m, w).Success?
    ensures Inv(Release(m, w).value.after)
  {
    var returned := m.(free := m.free + [w], busy := m.busy - {w});
    assert Elems(returned.free) == Elems(m.free) + {w};
    if m.queue != [] {
      var a := Release(m, w).value.after;
      assert a.free == [] && a.busy.Keys == m.busy.Keys;
      assert Elems(m.free) == {};
    }
  }

  /**
    With reports waiting, the released worker is the one that takes the head
    of the queue: the head leaves the queue and runs on that same worker, the
    free list stays empty, and every other waiting report moves up exactly one
    place.
  */
  lemma ReleaseHandsOverHead(m: Manager, w: nat)
    requires Inv(m) && w in m.busy && m.queue != []
    ensures Release(m, w).Success?
    ensures var t := Release(m, w).value;
      && t.spawned == Some(Spawn(w, m.queue[0]))
      && t.after.queue == m.queue[1..]
      && t.after.free == []
      && t.after.busy == m.busy[w := m.queue[0]]
    ensures var t := Release(m, w).value;
      forall id :: id in m.queue && id != m.queue[0] ==>
        GetQueuePlace(m, id).Success? && GetQueuePlace(t.after, id).Success? &&
        GetQueuePlace(t.after, id).value == GetQueuePlace(m, id).value - 1
  {
    var t := Release(m, w).value;
    assert t.after.busy == m.busy[w := m.queue[0]];
  }

  /** With nothing waiting, the released worker joins the tail of the free list and nothing starts. */
  lemma ReleaseIdles(m: Manager, w: nat)
    requires Inv(m) && w in m.busy && m.queue == []
    ensures Release(m, w).Success?
    ensures var t := Release(m, w).value;
      && t.spawned.None?
      && t.after.free == m.free + [w]
      && t.after.busy == m.busy - {w}
      && t.after.queue == []
  {
  }
}
