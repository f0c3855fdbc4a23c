/**
  Report statuses. The database stores a one-letter code (the `TextChoices` of the
  `Report` model); the service layer exposes the `ReportStatus` enum and converts
  between the two through a code -> member-name table.
*/
module Status {
  import opened Wrappers

  /** The four members of the service-level `ReportStatus` enum. */
  datatype ReportStatus = Waiting | InProcess | Completed | Error

  /** The code stored in the `status` column for each status. */
  function Code(s: ReportStatus): (c: string)
    ensures 1 <= |c| <= 3  // fits the `max_length=3` column
  {
    match s
    case Waiting => "W"
    case InProcess => "P"
    case Completed => "C"
    case Error => "E"
  }

  /** The member name of each status, used to look it up by name. */
  function Name(s: ReportStatus): string {
    match s
    case Waiting => "WAITING"
    case InProcess => "IN_PROCESS"
    case Completed => "COMPLETED"
    case Error => "ERROR"
  }

  /** The code -> member-name table used when the status is read back. */
  const StatusNames: map<string, string> :=
    map["W" := "WAITING", "P" := "IN_PROCESS", "C" := "COMPLETED", "E" := "ERROR"]

  /** Enum lookup by member name; `None` where Python raises `KeyError`. */
  function ByName(name: string): (r: Option<ReportStatus>)
    ensures forall s :: r == Some(s) <==> Name(s) == name
  {
    if name == "WAITING" then Some(Waiting)
    else if name == "IN_PROCESS" then Some(InProcess)
    else if name == "COMPLETED" then Some(Completed)
    else if name == "ERROR" then Some(Error)
    else None
  }

  /**
    Decodes a stored code: the table lookup followed by the enum lookup. The
    result is `None` exactly for a code outside the table, and on the four
    codes it inverts `Code`, so decoding is a bijection between the stored
    codes and the enum members.
  */
  function Decode(code: string): (r: Option<ReportStatus>)
    ensures r.None? <==> code !in StatusNames
    ensures forall s :: r == Some(s) <==> Code(s) == code
  {
    if code in StatusNames then ByName(StatusNames[code]) else None
  }

  /** Distinct statuses are stored under distinct codes. */
  lemma CodeInjective(s: ReportStatus, t: ReportStatus)
    ensures Code(s) == Code(t) <==> s == t
  {
  }

  /** The legal moves of the report lifecycle: WAITING -> IN_PROCESS -> COMPLETED | ERROR. */
  predicate Next(from: ReportStatus, to: ReportStatus) {
    (from == Waiting && to == InProcess) ||
    (from == InProcess && (to == Completed || to == Error))
  }

  /** Terminal statuses: no legal move leaves them. */
  predicate Terminal(s: ReportStatus) {
    s == Completed || s == Error
  }

  /** Position along the lifecycle; every legal move increases it. */
  function Rank(s: ReportStatus): (k: nat)
    ensures k <= 2
    ensures k == 2 <==> Terminal(s)
  {
    match s
    case Waiting => 0
    case InProcess => 1
    case Completed => 2
    case Error => 2
  }

  /** The lifecycle only moves forward and nothing leaves a terminal status. */
  lemma NextIsForward(from: ReportStatus, to: ReportStatus)
    ensures Next(from, to) ==> Rank(from) < Rank(to)
    ensures Terminal(from) ==> !Next(from, to)
  {
  }
}
