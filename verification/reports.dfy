/**
  The report record and the `ReportManager` operations of the service layer:
  creating a report, loading it with an ownership check, and reading back its
  public information. The database is an abstract map from primary key to record.
*/
module Reports {
  import opened Wrappers
  import opened Status

  /** An abstract clock reading (`timezone.now()`). */
  type Tick = nat

  /**
    One `Report` row. `status` holds the stored code; `startedAt`, `endedAt`
    and `modelVersion` are the nullable fields the worker fills in.
  */
  datatype Report = Report(
    id: nat,
    text: string,
    status: string,
    owner: nat,
    createdAt: Tick,
    startedAt: Option<Tick>,
    endedAt: Option<Tick>,
    modelVersion: Option<string>)

  /** The report table, keyed by primary key. */
  type Store = map<nat, Report>

  /** Every row sits under its own primary key. */
  predicate Keyed(store: Store) {
    forall k :: k in store ==> store[k].id == k
  }

  /** `ReportDoesNotExist`, carrying the id from its message. */
  datatype LoadError = ReportDoesNotExist(reportId: nat)

  /**
    `ReportManager.load`: fetch the report by id and, when a user is given,
    refuse a report owned by anybody else with the very error a missing id
    produces. The manager wraps the stored record unchanged.
  */
  function Load(store: Store, id: nat, user: Option<nat>): (r: Result<Report, LoadError>)
    ensures r.Success? <==> id in store && (user.None? || store[id].owner == user.value)
    ensures r.Success? ==> r.value == store[id]
    ensures r.Failure? ==> r.error == ReportDoesNotExist(id)
  {
    if id !in store then Failure(ReportDoesNotExist(id))
    else if user.Some? && store[id].owner != user.value then Failure(ReportDoesNotExist(id))
    else Success(store[id])
  }

  /**
    A caller who does not own a report cannot tell it from an id that is not
    in the store at all.
  */
  lemma ForeignReportLooksMissing(store: Store, id: nat, user: nat)
    requires id in store && store[id].owner != user
    ensures Load(store, id, Some(user)) == Load(store - {id}, id, Some(user))
    ensures Load(store, id, Some(user)).Failure?
  {
  }

  /**
    `ReportManager.create`: a new WAITING report owned by `user`. The primary
    key is the one the store assigns, so it is taken as a parameter that is
    not yet in use.
  */
  function Create(store: Store, id: nat, text: string, user: nat, now: Tick): (r: (Store, Report))
    requires id !in store
    ensures Decode(r.1.status) == Some(Waiting)
    ensures r.1.id == id && r.1.text == text && r.1.owner == user && r.1.createdAt == now
    ensures r.1.startedAt.None? && r.1.endedAt.None? && r.1.modelVersion.None?
    ensures r.0.Keys == store.Keys + {id}
    ensures forall k :: k in store ==> r.0[k] == store[k]
    ensures Load(r.0, id, Some(user)) == Success(r.1)
  {
    var report := Report(id, text, Code(Waiting), user, now, None, None, None);
    (store[id := report], report)
  }

  /** Creating a report keeps the store keyed by primary key. */
  lemma CreateKeepsKeyed(store: Store, id: nat, text: string, user: nat, now: Tick)
    requires Keyed(store) && id !in store
    ensures Keyed(Create(store, id, text, user, now).0)
  {
  }

  /** The public view of a report (`ReportInfo` without its URLs). */
  datatype ReportInfo = ReportInfo(id: nat, text: string, status: ReportStatus, user: nat, order: Option<nat>)

  /** Why `get_report_info` can fail: the row vanished, or its code is not in the table. */
  datatype InfoError = Vanished(reportId: nat) | UnknownCode(code: string)

  /**
    `ReportManager.get_report_info`: re-read the row, decode its status code
    and echo the handle's primary key with the row's text and owner. The queue position is never filled in.
  */
  function GetReportInfo(store: Store, report: Report): (r: Result<ReportInfo, InfoError>)
    ensures report.id !in store ==> r == Failure(Vanished(report.id))
    ensures r.Success? <==> report.id in store && store[report.id].status in StatusNames
    ensures r.Success? ==>
      var row := store[report.id];
      && r.value.id == report.id && r.value.text == row.text && r.value.user == row.owner
      && Code(r.value.status) == row.status
      && r.value.order.None?
  {
    if report.id !in store then Failure(Vanished(report.id))
    else
      var row := store[report.id];
      match Decode(row.status)
      case None => Failure(UnknownCode(row.status))
      case Some(s) => Success(ReportInfo(report.id, row.text, s, row.owner, None))
  }

  /** A freshly created report reads back as WAITING with its own id, text and owner. */
  lemma CreatedReportReadsWaiting(store: Store, id: nat, text: string, user: nat, now: Tick)
    requires id !in store
    ensures
      var (store', report) := Create(store, id, text, user, now);
      GetReportInfo(store', report) == Success(ReportInfo(id, text, Waiting, user, None))
  {
    var (store', report) := Create(store, id, text, user, now);
    assert Decode(report.status) == Some(Waiting);
  }
}
