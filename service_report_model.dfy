/** The ServiceReport schema: a user's report that a public service is
    unavailable at their address, its status enum and its defaults. */
module ServiceReportModel {
  import opened Common
  import opened Addresses

  datatype ReportStatus = Unavailable | InProgress | PendingConfirmation | Confirmed | Rejected | Cancelled

  function StatusName(s: ReportStatus): string
  {
    match s
    case Unavailable => "unavailable"
    case InProgress => "in_progress"
    case PendingConfirmation => "pending_confirmation"
    case Confirmed => "confirmed"
    case Rejected => "rejected"
    case Cancelled => "cancelled"
  }

  /** The enum validator. */
  function ParseStatus(s: string): (r: Option<ReportStatus>)
    ensures r.Some? ==> StatusName(r.value) == s
  {
    if s == "unavailable" then Some(Unavailable)
    else if s == "in_progress" then Some(InProgress)
    else if s == "pending_confirmation" then Some(PendingConfirmation)
    else if s == "confirmed" then Some(Confirmed)
    else if s == "rejected" then Some(Rejected)
    else if s == "cancelled" then Some(Cancelled)
    else None
  }

  lemma ParseStatusName(s: ReportStatus)
    ensures ParseStatus(StatusName(s)) == Some(s)
  {
  }

  /** The statuses no operation leaves. */
  predicate Final(s: ReportStatus)
  {
    s == Confirmed || s == Rejected || s == Cancelled
  }

  /** A ServiceReport document. */
  datatype ServiceReport = ServiceReport(
    service: Id,
    user: Id,
    address: ReportAddress,
    status: ReportStatus,
    resolvedByAdmin: Option<Id>,
    confirmedByUser: Option<bool>,
    rejectionReason: string,
    cancelReason: string,
    adminNote: string)

  /** A new report with the schema defaults: no resolving admin, no
      confirmation flag, empty reason, cancel reason and note. */
  function NewReport(service: Id, user: Id, address: ReportAddress): ServiceReport
  {
    ServiceReport(service, user, address, Unavailable, None, None, "", "", "")
  }

  /** What the handlers keep true of every stored report: the required
      service reference is set, a confirmed report carries the user's true
      flag, and a report an admin has acted on names that admin. */
  predicate WellFormed(r: ServiceReport)
  {
    && r.service != ""
    && (r.status == Confirmed ==> r.confirmedByUser == Some(true))
    && (r.status == InProgress || r.status == PendingConfirmation || r.status == Confirmed || r.status == Rejected
        ==> r.resolvedByAdmin.Some?)
  }
}
