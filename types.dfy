// The enumerations and records shared by the store, the approval list, the
// booking form, the app shell and the analytics view (types.ts). Strings stay
// strings; timestamps, which the source takes from the wall clock as ISO text,
// are a `nat` reading of that clock.
module Types {
  import opened Seqs

  datatype UserRole = Coordinator | Hod | Principal | Admin

  datatype ApprovalStatus =
    | PendingHod
    | PendingPrincipal
    | PendingAdmin
    | Approved
    | Rejected
    | Completed

  /** Review state of a submitted report; `ReportApproved` is the source's 'APPROVED'. */
  datatype ReportStatus = PendingReview | ReportApproved | NeedsRevision

  /** The notification `type` field ('INFO' | 'SUCCESS' | 'WARNING' | 'ERROR'). */
  datatype NotificationKind = Info | Success | Warning | Error

  datatype Venue = Venue(id: string, name: string, capacity: nat, features: seq<string>, image: string)

  datatype EventReport = EventReport(
    attendance: int,
    summary: string,
    photos: seq<string>,
    submittedAt: nat,
    status: ReportStatus)

  /** A booking request; `date` is "YYYY-MM-DD", `startTime`/`endTime` are "HH:MM". */
  datatype Event = Event(
    id: string,
    title: string,
    organizer: string,
    department: string,
    venueId: string,
    date: string,
    startTime: string,
    endTime: string,
    description: string,
    status: ApprovalStatus,
    report: Option<EventReport>)

  /** `kind` is the source's `type` field, a reserved word here. */
  datatype Notification = Notification(
    id: string,
    userId: string,
    message: string,
    kind: NotificationKind,
    read: bool,
    createdAt: nat)

  /** The single session identity of this deployment. */
  const CurrentUser: string := "Current User"

  function AllRoles(): seq<UserRole>
  {
    [Coordinator, Hod, Principal, Admin]
  }

  function AllStatuses(): seq<ApprovalStatus>
  {
    [PendingHod, PendingPrincipal, PendingAdmin, Approved, Rejected, Completed]
  }

  /** `UserRole` has exactly four values and `ApprovalStatus` exactly six. */
  lemma EnumerationsComplete()
    ensures |AllRoles()| == 4 && forall r: UserRole :: r in AllRoles()
    ensures forall i, j :: 0 <= i < j < |AllRoles()| ==> AllRoles()[i] != AllRoles()[j]
    ensures |AllStatuses()| == 6 && forall s: ApprovalStatus :: s in AllStatuses()
    ensures forall i, j :: 0 <= i < j < |AllStatuses()| ==> AllStatuses()[i] != AllStatuses()[j]
  {
    forall r: UserRole
      ensures r in AllRoles()
    {
      match r
      case Coordinator => assert AllRoles()[0] == r;
      case Hod => assert AllRoles()[1] == r;
      case Principal => assert AllRoles()[2] == r;
      case Admin => assert AllRoles()[3] == r;
    }
    forall s: ApprovalStatus
      ensures s in AllStatuses()
    {
      match s
      case PendingHod => assert AllStatuses()[0] == s;
      case PendingPrincipal => assert AllStatuses()[1] == s;
      case PendingAdmin => assert AllStatuses()[2] == s;
      case Approved => assert AllStatuses()[3] == s;
      case Rejected => assert AllStatuses()[4] == s;
      case Completed => assert AllStatuses()[5] == s;
    }
  }

  /** The three statuses that wait for a sign-off. */
  predicate IsPending(s: ApprovalStatus)
  {
    s == PendingHod || s == PendingPrincipal || s == PendingAdmin
  }
}
