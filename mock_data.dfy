// The in-memory booking/approval store (services/mockData.ts). The class
// MockService owns the event list and the notification list and changes them
// in place; each state-changing method is proved against a function on a
// Snapshot of both lists, and the store's rules are lemmas about those
// functions. Fresh ids (Math.random) and timestamps (new Date()) are
// parameters: `id` and the clock reading `now`.
module MockData {
  import opened Seqs
  import opened Types
  import opened TimeText

  // ----- Seed data -----

  const Venues: seq<Venue> := [
    Venue("v1", "Grand Auditorium", 500, ["Projector", "Sound System", "Stage", "AC"],
          "https://picsum.photos/800/400?random=1"),
    Venue("v2", "Conference Hall A", 100, ["Projector", "Whiteboard", "Video Conf"],
          "https://picsum.photos/800/400?random=2"),
    Venue("v3", "Innovation Lab", 50, ["Computers", "3D Printers", "Smartboard"],
          "https://picsum.photos/800/400?random=3"),
    Venue("v4", "Open Air Amphitheater", 1000, ["Outdoor", "Stage", "Lighting"],
          "https://picsum.photos/800/400?random=4")
  ]

  /** The two seed events; their dates are computed from the clock at start-up, so they are parameters. */
  function InitialEvents(today: string, tomorrow: string, now: nat): seq<Event>
  {
    [ Event("e1", "Annual Tech Symposium", "John Doe", "Computer Science", "v1", today,
            "09:00", "17:00", "A gathering of tech enthusiasts.", Approved,
            Some(EventReport(450, "Great turnout, minor technical glitch with sound.", [], now, ReportApproved))),
      Event("e2", "Faculty Meeting", "Dr. Smith", "Administration", "v2", tomorrow,
            "10:00", "12:00", "Monthly review.", PendingHod, None) ]
  }

  function InitialNotifications(now: nat): seq<Notification>
  {
    [Notification("n1", CurrentUser, "Welcome to HelixFlow! Check your dashboard for updates.", Info, false, now)]
  }

  /** The seed data: four venues with distinct ids, an approved event e1 with a report, a pending event e2 without one. */
  lemma SeedData(today: string, tomorrow: string, now: nat)
    ensures |Venues| == 4 && forall i, j :: 0 <= i < j < |Venues| ==> Venues[i].id != Venues[j].id
    ensures forall v :: v in Venues ==> v.capacity > 0
    ensures var evs := InitialEvents(today, tomorrow, now);
      |evs| == 2 && evs[0].id != evs[1].id
      && evs[0].status == Approved && evs[0].report.Some?
      && evs[1].status == PendingHod && evs[1].report.None?
    ensures forall n :: n in InitialNotifications(now) ==> n.userId == CurrentUser && !n.read
    ensures UniqueIds(InitialEvents(today, tomorrow, now))
  {
  }

  /** Both collections of the store, as one value. */
  datatype Snapshot = Snapshot(events: seq<Event>, notifications: seq<Notification>)

  /** No two stored events share an id; the model takes the generated ids to be fresh. */
  predicate UniqueIds(events: seq<Event>)
  {
    forall i, j :: 0 <= i < j < |events| ==> events[i].id != events[j].id
  }

  // ----- Lookup -----

  function HasId(id: string): Event -> bool
  {
    (e: Event) => e.id == id
  }

  /** Lookup by id: the position of the first event with that id, if any. */
  function FindEvent(events: seq<Event>, id: string): (r: Option<nat>)
    ensures r.Some? ==> r.value < |events| && events[r.value].id == id
    ensures r.Some? ==> forall j :: 0 <= j < r.value ==> events[j].id != id
    ensures r.None? <==> forall j :: 0 <= j < |events| ==> events[j].id != id
  {
    FindFirst(events, HasId(id))
  }

  // ----- Notification side effects -----

  /** The raw status text, as the source spells the enumeration. */
  function StatusName(s: ApprovalStatus): string
  {
    match s
    case PendingHod => "PENDING_" + "HOD"
    case PendingPrincipal => "PENDING_" + "PRINCIPAL"
    case PendingAdmin => "PENDING_" + "ADMIN"
    case Approved => "APPROVED"
    case Rejected => "REJECTED"
    case Completed => "COMPLETED"
  }

  /** JavaScript's `s.replace(pat, rep)` with a string pattern: only the first occurrence is replaced. */
  function ReplaceFirst(s: string, pat: string, rep: string): string
    decreases |s|
  {
    if |s| < |pat| then s
    else if s[..|pat|] == pat then rep + s[|pat|..]
    else [s[0]] + ReplaceFirst(s[1..], pat, rep)
  }

  /** The status text shown in notifications: the first "PENDING_" becomes "Pending ", then the first remaining underscore becomes a space. */
  function StatusLabel(s: ApprovalStatus): string
  {
    ReplaceFirst(ReplaceFirst(StatusName(s), "PENDING_", "Pending "), "_", " ")
  }

  function StatusMessage(title: string, s: ApprovalStatus): string
  {
    "Your event \"" + title + "\" has been updated to: " + StatusLabel(s)
  }

  lemma ReplaceHit(s: string, pat: string, rep: string)
    requires |pat| <= |s| && s[..|pat|] == pat
    ensures ReplaceFirst(s, pat, rep) == rep + s[|pat|..]
  {
  }

  lemma ReplaceMiss(s: string, pat: string, rep: string)
    requires 0 < |pat| <= |s| && s[0] != pat[0]
    ensures ReplaceFirst(s, pat, rep) == [s[0]] + ReplaceFirst(s[1..], pat, rep)
  {
    assert s[..|pat|][0] != pat[0];
  }

  /** Replacing a character that does not occur changes nothing. */
  lemma {:induction false} ReplaceAbsentChar(s: string, c: char, rep: string)
    requires forall i :: 0 <= i < |s| ==> s[i] != c
    ensures ReplaceFirst(s, [c], rep) == s
  {
    if |s| > 0 {
      ReplaceMiss(s, [c], rep);
      ReplaceAbsentChar(s[1..], c, rep);
    }
  }

  /** The text shown for each status in a status-change notification. */
  function ShownStatus(s: ApprovalStatus): string
  {
    match s
    case PendingHod => "Pending " + "HOD"
    case PendingPrincipal => "Pending " + "PRINCIPAL"
    case PendingAdmin => "Pending " + "ADMIN"
    case Approved => "APPROVED"
    case Rejected => "REJECTED"
    case Completed => "COMPLETED"
  }

  /** What the organizer reads: the pending stages become "Pending <ROLE>", the others keep their name. */
  lemma StatusLabels(s: ApprovalStatus)
    ensures StatusLabel(s) == ShownStatus(s)
  {
    match s
    case PendingHod => HodLabel();
    case PendingPrincipal => PrincipalLabel();
    case PendingAdmin => AdminLabel();
    case Approved => ApprovedLabel();
    case Rejected => RejectedLabel();
    case Completed => CompletedLabel();
  }

  // One lemma per status keeps each evaluation of the two replacements small.
  lemma HodLabel() ensures StatusLabel(PendingHod) == ShownStatus(PendingHod) { PendingLabel("PENDING_" + "HOD", "HOD"); }
  lemma PrincipalLabel() ensures StatusLabel(PendingPrincipal) == ShownStatus(PendingPrincipal) { PendingLabel("PENDING_" + "PRINCIPAL", "PRINCIPAL"); }
  lemma AdminLabel() ensures StatusLabel(PendingAdmin) == ShownStatus(PendingAdmin) { PendingLabel("PENDING_" + "ADMIN", "ADMIN"); }
  lemma ApprovedLabel() ensures StatusLabel(Approved) == ShownStatus(Approved) { PlainLabel("APPROVED"); }
  lemma RejectedLabel() ensures StatusLabel(Rejected) == ShownStatus(Rejected) { PlainLabel("REJECTED"); }
  lemma CompletedLabel() ensures StatusLabel(Completed) == ShownStatus(Completed) { PlainLabel("COMPLETED"); }

  lemma PlainLabel(name: string)
    requires name == "APPROVED" || name == "REJECTED" || name == "COMPLETED"
    ensures ReplaceFirst(ReplaceFirst(name, "PENDING_", "Pending "), "_", " ") == name
  {
    ReplaceMiss(name, "PENDING_", "Pending ");
    if name == "COMPLETED" {
      ReplaceMiss(name[1..], "PENDING_", "Pending ");
    }
    assert forall i :: 0 <= i < |name| ==> name[i] != '_';
    ReplaceAbsentChar(name, '_', " ");
  }

  lemma PendingLabel(name: string, role: string)
    requires name == "PENDING_" + role
    requires forall i :: 0 <= i < |role| ==> role[i] != '_'
    ensures ReplaceFirst(ReplaceFirst(name, "PENDING_", "Pending "), "_", " ") == "Pending " + role
  {
    assert name[..8] == "PENDING_" && name[8..] == role;
    ReplaceHit(name, "PENDING_", "Pending ");
    var shown := "Pending " + role;
    assert forall i :: 0 <= i < |shown| ==> shown[i] != '_';
    ReplaceAbsentChar(shown, '_', " ");
  }

  /** The notification type chosen for a status change. */
  function KindFor(s: ApprovalStatus): (k: NotificationKind)
    ensures k == Success <==> s == Approved || s == Completed
    ensures k == Error <==> s == Rejected
    ensures k == Info <==> IsPending(s)
    ensures k != Warning
  {
    if s == Approved || s == Completed then Success
    else if s == Rejected then Error
    else Info
  }

  function ReportMessage(title: string): string
  {
    "Report submitted for \"" + title + "\". Pending admin review."
  }

  // ----- State transitions -----

  /** `updateEventStatus`: overwrite the first matching event's status and notify its organizer; no-op on a missing id. */
  function UpdateStatus(st: Snapshot, eventId: string, status: ApprovalStatus, id: string, now: nat): (r: Snapshot)
    ensures FindEvent(st.events, eventId).None? ==> r == st
    ensures FindEvent(st.events, eventId).Some? ==>
      var i := FindEvent(st.events, eventId).value;
      var e := st.events[i];
      && |r.events| == |st.events|
      && r.events[i] == e.(status := status)
      && (forall j :: 0 <= j < |st.events| && j != i ==> r.events[j] == st.events[j])
      && |r.notifications| == |st.notifications| + 1
      && r.notifications[1..] == st.notifications
      && r.notifications[0].userId == e.organizer
      && r.notifications[0].kind == KindFor(status)
      && !r.notifications[0].read
  {
    match FindEvent(st.events, eventId)
    case None => st
    case Some(i) =>
      var e := st.events[i];
      Snapshot(st.events[i := e.(status := status)],
               [Notification(id, e.organizer, StatusMessage(e.title, status), KindFor(status), false, now)]
               + st.notifications)
  }

  /** The fields of a report that the report form sends; the store adds `submittedAt` and `status`. */
  datatype ReportDraft = ReportDraft(attendance: int, summary: string, photos: seq<string>)

  function FiledReport(draft: ReportDraft, now: nat): EventReport
  {
    EventReport(draft.attendance, draft.summary, draft.photos, now, PendingReview)
  }

  /** `submitReport`: attach the report, force COMPLETED whatever the prior status, notify; no-op on a missing id. */
  function AttachReport(st: Snapshot, eventId: string, draft: ReportDraft, id: string, now: nat): (r: Snapshot)
    ensures FindEvent(st.events, eventId).None? ==> r == st
    ensures FindEvent(st.events, eventId).Some? ==>
      var i := FindEvent(st.events, eventId).value;
      var e := st.events[i];
      && |r.events| == |st.events|
      && r.events[i].status == Completed
      && r.events[i].report == Some(EventReport(draft.attendance, draft.summary, draft.photos, now, PendingReview))
      && r.events[i] == e.(status := Completed, report := r.events[i].report)
      && (forall j :: 0 <= j < |st.events| && j != i ==> r.events[j] == st.events[j])
      && |r.notifications| == |st.notifications| + 1
      && r.notifications[1..] == st.notifications
      && r.notifications[0].userId == e.organizer
      && r.notifications[0].kind == Success
      && !r.notifications[0].read
  {
    match FindEvent(st.events, eventId)
    case None => st
    case Some(i) =>
      var e := st.events[i];
      Snapshot(st.events[i := e.(report := Some(FiledReport(draft, now)), status := Completed)],
               [Notification(id, e.organizer, ReportMessage(e.title), Success, false, now)]
               + st.notifications)
  }

  /** Neither status updates nor reports change any event's id, so distinct ids stay distinct. */
  lemma TransitionsKeepIds(st: Snapshot, eventId: string, status: ApprovalStatus, draft: ReportDraft, id: string, now: nat)
    ensures var u := UpdateStatus(st, eventId, status, id, now).events;
      |u| == |st.events| && forall j :: 0 <= j < |u| ==> u[j].id == st.events[j].id
    ensures var a := AttachReport(st, eventId, draft, id, now).events;
      |a| == |st.events| && forall j :: 0 <= j < |a| ==> a[j].id == st.events[j].id
    ensures UniqueIds(st.events) ==> UniqueIds(UpdateStatus(st, eventId, status, id, now).events)
    ensures UniqueIds(st.events) ==> UniqueIds(AttachReport(st, eventId, draft, id, now).events)
  {
    var u := UpdateStatus(st, eventId, status, id, now).events;
    var a := AttachReport(st, eventId, draft, id, now).events;
    assert forall j :: 0 <= j < |u| ==> u[j].id == st.events[j].id;
    assert forall j :: 0 <= j < |a| ==> a[j].id == st.events[j].id;
  }

  /** Appending an event whose id is not yet stored keeps the ids distinct; reusing a stored id breaks them. */
  lemma AddKeepsIds(events: seq<Event>, e: Event)
    ensures UniqueIds(events + [e]) <==> UniqueIds(events) && forall i :: 0 <= i < |events| ==> events[i].id != e.id
  {
    var evs := events + [e];
    assert forall i :: 0 <= i < |events| ==> evs[i] == events[i];
    if UniqueIds(evs) {
      forall i | 0 <= i < |events|
        ensures events[i].id != e.id
      {
        assert evs[i].id != evs[|events|].id;
      }
    }
  }

  // ----- Conflict detection -----

  /** The predicate of `checkConflict`'s `some`: same venue and date, not rejected, and the half-open intervals meet. */
  predicate Blocks(e: Event, venueId: string, date: string, start: string, end: string)
  {
    e.venueId == venueId && e.date == date && e.status != Rejected
    && LexLess(start, e.endTime) && LexLess(e.startTime, end)
  }

  /** `checkConflict`: some stored event blocks the requested slot. */
  function AnyConflict(events: seq<Event>, venueId: string, date: string, start: string, end: string): (r: bool)
    ensures r <==> exists i :: 0 <= i < |events| && Blocks(events[i], venueId, date, start, end)
  {
    if |events| == 0 then false
    else
      Blocks(events[0], venueId, date, start, end)
      || (assert forall i :: 0 <= i < |events| - 1 ==> events[1..][i] == events[i + 1];
          AnyConflict(events[1..], venueId, date, start, end))
  }

  lemma {:induction false} AnyConflictConcat(a: seq<Event>, b: seq<Event>, venueId: string, date: string, start: string, end: string)
    ensures AnyConflict(a + b, venueId, date, start, end)
         == (AnyConflict(a, venueId, date, start, end) || AnyConflict(b, venueId, date, start, end))
  {
    if |a| > 0 {
      assert (a + b)[1..] == a[1..] + b;
      AnyConflictConcat(a[1..], b, venueId, date, start, end);
    } else {
      assert a + b == b;
    }
  }

  /** Back-to-back bookings are not conflicts: intervals are half-open. */
  lemma BackToBackIsFree(e: Event, venueId: string, date: string, start: string, end: string)
    requires end == e.startTime || start == e.endTime
    ensures !Blocks(e, venueId, date, start, end)
  {
    LexIrreflexive(end);
    LexIrreflexive(start);
  }

  /** Rejected events, and events at another venue or on another date, never affect the answer. */
  lemma IgnoredEventsNeverConflict(before: seq<Event>, x: Event, after: seq<Event>,
                                   venueId: string, date: string, start: string, end: string)
    requires x.status == Rejected || x.venueId != venueId || x.date != date
    ensures AnyConflict(before + [x] + after, venueId, date, start, end)
         == AnyConflict(before + after, venueId, date, start, end)
  {
    AnyConflictConcat(before + [x], after, venueId, date, start, end);
    AnyConflictConcat(before, [x], venueId, date, start, end);
    AnyConflictConcat(before, after, venueId, date, start, end);
    assert !AnyConflict([x], venueId, date, start, end);
  }

  /** Pending, approved and completed events all block an overlapping request at their venue and date. */
  lemma LiveEventsBlock(events: seq<Event>, i: nat, start: string, end: string)
    requires i < |events|
    requires events[i].status != Rejected
    requires LexLess(start, events[i].endTime) && LexLess(events[i].startTime, end)
    ensures AnyConflict(events, events[i].venueId, events[i].date, start, end)
  {
    assert Blocks(events[i], events[i].venueId, events[i].date, start, end);
  }

  /** For well-formed times, `Blocks` is overlap of the half-open minute intervals. */
  lemma BlocksIsClockOverlap(e: Event, venueId: string, date: string, start: string, end: string)
    requires IsTime(e.startTime) && IsTime(e.endTime) && IsTime(start) && IsTime(end)
    ensures Blocks(e, venueId, date, start, end)
        <==> e.venueId == venueId && e.date == date && e.status != Rejected
             && Minutes(start) < Minutes(e.endTime) && Minutes(e.startTime) < Minutes(end)
  {
    TimeOrder(start, e.endTime);
    TimeOrder(e.startTime, end);
  }

  /**
   * An approved booking of v2 on 2025-01-10 from 09:00 to 11:00 blocks a
   * request for 10:00-12:00 but not the back-to-back request 11:00-13:00.
   */
  lemma OverlapExample()
    ensures var held := Event("x", "T", "o", "d", "v2", "2025-01-10", "09:00", "11:00", "", Approved, None);
      AnyConflict([held], "v2", "2025-01-10", "10:00", "12:00")
      && !AnyConflict([held], "v2", "2025-01-10", "11:00", "13:00")
  {
    var held := Event("x", "T", "o", "d", "v2", "2025-01-10", "09:00", "11:00", "", Approved, None);
    assert LexLess("10:00", "11:00") && LexLess("09:00", "12:00");
    BackToBackIsFree(held, "v2", "2025-01-10", "11:00", "13:00");
  }

  /** Two stored bookings that hold the same venue at overlapping times on the same day. */
  predicate Clash(a: Event, b: Event)
  {
    a.venueId == b.venueId && a.date == b.date && a.status != Rejected && b.status != Rejected
    && LexLess(a.startTime, b.endTime) && LexLess(b.startTime, a.endTime)
  }

  predicate NoDoubleBooking(events: seq<Event>)
  {
    forall i, j :: 0 <= i < j < |events| ==> !Clash(events[i], events[j])
  }

  /** Appending a booking whose slot `checkConflict` reports free keeps the store free of double bookings. */
  lemma CheckedAddKeepsNoDoubleBooking(events: seq<Event>, e: Event)
    requires NoDoubleBooking(events)
    requires !AnyConflict(events, e.venueId, e.date, e.startTime, e.endTime)
    ensures NoDoubleBooking(events + [e])
  {
    var evs := events + [e];
    forall i, j | 0 <= i < j < |evs|
      ensures !Clash(evs[i], evs[j])
    {
      if j == |events| {
        assert !Blocks(events[i], e.venueId, e.date, e.startTime, e.endTime);
      }
    }
  }

  /** Replacing the status of event i keeps the store free of double bookings unless it revives a rejected event. */
  lemma StatusChangeKeepsNoDoubleBooking(events: seq<Event>, i: nat, e: Event)
    requires NoDoubleBooking(events) && i < |events|
    requires e.venueId == events[i].venueId && e.date == events[i].date
    requires e.startTime == events[i].startTime && e.endTime == events[i].endTime
    requires e.status == Rejected || events[i].status != Rejected
    ensures NoDoubleBooking(events[i := e])
  {
    var evs := events[i := e];
    forall a, b | 0 <= a < b < |evs|
      ensures !Clash(evs[a], evs[b])
    {
      assert !Clash(events[a], events[b]);
    }
  }

  lemma UpdateKeepsNoDoubleBooking(st: Snapshot, eventId: string, status: ApprovalStatus, id: string, now: nat)
    requires NoDoubleBooking(st.events)
    requires FindEvent(st.events, eventId).Some? ==>
      st.events[FindEvent(st.events, eventId).value].status != Rejected || status == Rejected
    ensures NoDoubleBooking(UpdateStatus(st, eventId, status, id, now).events)
  {
    match FindEvent(st.events, eventId)
    case None =>
    case Some(i) =>
      StatusChangeKeepsNoDoubleBooking(st.events, i, st.events[i].(status := status));
  }

  lemma SubmitReportKeepsNoDoubleBooking(st: Snapshot, eventId: string, draft: ReportDraft, id: string, now: nat)
    requires NoDoubleBooking(st.events)
    requires FindEvent(st.events, eventId).Some? ==>
      st.events[FindEvent(st.events, eventId).value].status != Rejected
    ensures NoDoubleBooking(AttachReport(st, eventId, draft, id, now).events)
  {
    match FindEvent(st.events, eventId)
    case None =>
    case Some(i) =>
      var e := st.events[i];
      StatusChangeKeepsNoDoubleBooking(st.events, i, e.(report := Some(FiledReport(draft, now)), status := Completed));
  }

  /**
   * Because `submitReport` forces COMPLETED from any status, a report filed
   * against a rejected booking revives it, and it then clashes with the
   * booking that took its slot.
   */
  lemma ReportOnRejectedRevivesClash()
    ensures var rejected := Event("a", "T", "o", "d", "v2", "2025-01-10", "09:00", "11:00", "", Rejected, None);
      var rebooked := Event("b", "T", "o", "d", "v2", "2025-01-10", "10:00", "12:00", "", Approved, None);
      var st := Snapshot([rejected, rebooked], []);
      NoDoubleBooking(st.events)
      && !NoDoubleBooking(AttachReport(st, "a", ReportDraft(0, "", []), "n", 0).events)
  {
    var rejected := Event("a", "T", "o", "d", "v2", "2025-01-10", "09:00", "11:00", "", Rejected, None);
    var rebooked := Event("b", "T", "o", "d", "v2", "2025-01-10", "10:00", "12:00", "", Approved, None);
    var st := Snapshot([rejected, rebooked], []);
    assert FindEvent(st.events, "a") == Some(0);
    var after := AttachReport(st, "a", ReportDraft(0, "", []), "n", 0).events;
    assert LexLess("09:00", "12:00") && LexLess("10:00", "11:00");
    assert Clash(after[0], after[1]);
  }

  // ----- Notification queries and updates -----

  function ToUser(userId: string): Notification -> bool
  {
    (n: Notification) => n.userId == userId
  }

  predicate NewestFirst(ns: seq<Notification>)
  {
    forall i, j :: 0 <= i < j < |ns| ==> ns[i].createdAt >= ns[j].createdAt
  }

  /** Insert before the first element that is not newer, so equal timestamps keep their input order. */
  function InsertByTime(n: Notification, sorted: seq<Notification>): (r: seq<Notification>)
    requires NewestFirst(sorted)
    ensures NewestFirst(r)
    ensures multiset(r) == multiset(sorted) + multiset{n}
    ensures |r| == |sorted| + 1 && (r[0] == n || (|sorted| > 0 && r[0] == sorted[0]))
  {
    if |sorted| == 0 || sorted[0].createdAt <= n.createdAt then
      [n] + sorted
    else
      var rest := InsertByTime(n, sorted[1..]);
      assert rest[0].createdAt <= sorted[0].createdAt;
      assert forall i :: 0 <= i < |rest| ==> rest[i].createdAt <= rest[0].createdAt;
      assert sorted == [sorted[0]] + sorted[1..];
      [sorted[0]] + rest
  }

  /** The notification sort: newest first by creation time, as a stable insertion sort. */
  function SortNewestFirst(ns: seq<Notification>): (r: seq<Notification>)
    ensures NewestFirst(r)
    ensures multiset(r) == multiset(ns)
  {
    if |ns| == 0 then []
    else
      assert ns == [ns[0]] + ns[1..];
      InsertByTime(ns[0], SortNewestFirst(ns[1..]))
  }

  /** `getNotifications(userId)`: that user's notifications, newest first, read from a copy. */
  function NotificationsOf(ns: seq<Notification>, userId: string): (r: seq<Notification>)
    ensures NewestFirst(r)
    ensures multiset(r) == multiset(Filter(ns, ToUser(userId)))
    ensures forall n :: n in r <==> n in ns && n.userId == userId
  {
    var mine := Filter(ns, ToUser(userId));
    var r := SortNewestFirst(mine);
    assert forall n :: n in r <==> n in multiset(mine);
    r
  }

  function MarkedFor(n: Notification, userId: string): Notification
  {
    if n.userId == userId then n.(read := true) else n
  }

  /** `markAllRead(userId)` as a function of the notification list. */
  function MarkRead(ns: seq<Notification>, userId: string): (r: seq<Notification>)
    ensures |r| == |ns|
    ensures forall i :: 0 <= i < |ns| ==> r[i] == MarkedFor(ns[i], userId)
  {
    seq(|ns|, i requires 0 <= i < |ns| => MarkedFor(ns[i], userId))
  }

  /** Exactly the user's notifications become read; every other field and every other user's entry is untouched. */
  lemma MarkReadEffect(ns: seq<Notification>, userId: string)
    ensures var r := MarkRead(ns, userId);
      forall i :: 0 <= i < |ns| ==>
        && r[i].read == (ns[i].read || ns[i].userId == userId)
        && r[i].(read := ns[i].read) == ns[i]
        && (ns[i].userId != userId ==> r[i] == ns[i])
  {
  }

  /** Marking twice is marking once. */
  lemma MarkReadIdempotent(ns: seq<Notification>, userId: string)
    ensures MarkRead(MarkRead(ns, userId), userId) == MarkRead(ns, userId)
  {
  }

  // ----- The store object -----

  class MockService {
    var events: seq<Event>
    var notifications: seq<Notification>

    function State(): Snapshot
      reads this
    {
      Snapshot(events, notifications)
    }

    /** The store as the application starts it: the seed events and the welcome notification. */
    constructor (today: string, tomorrow: string, now: nat)
      ensures events == InitialEvents(today, tomorrow, now)
      ensures notifications == InitialNotifications(now)
    {
      events := InitialEvents(today, tomorrow, now);
      notifications := InitialNotifications(now);
    }

    function GetVenues(): seq<Venue>
    {
      Venues
    }

    function GetEvents(): seq<Event>
      reads this
    {
      events
    }

    /** `addEvent`: the event is appended at the end, nothing else changes. */
    method AddEvent(event: Event)
      modifies this
      ensures events == old(events) + [event]
      ensures notifications == old(notifications)
    {
      events := events + [event];
    }

    method UpdateEventStatus(eventId: string, status: ApprovalStatus, id: string, now: nat)
      modifies this
      ensures State() == UpdateStatus(old(State()), eventId, status, id, now)
    {
      var found := FindEvent(events, eventId);
      if found.Some? {
        var i := found.value;
        events := events[i := events[i].(status := status)];
        var event := events[i];
        AddNotification(event.organizer, StatusMessage(event.title, status), KindFor(status), id, now);
      }
    }

    method SubmitReport(eventId: string, draft: ReportDraft, id: string, now: nat)
      modifies this
      ensures State() == AttachReport(old(State()), eventId, draft, id, now)
    {
      var found := FindEvent(events, eventId);
      if found.Some? {
        var i := found.value;
        events := events[i := events[i].(report := Some(FiledReport(draft, now)))];
        events := events[i := events[i].(status := Completed)];
        var event := events[i];
        AddNotification(event.organizer, ReportMessage(event.title), Success, id, now);
      }
    }

    /** `checkConflict`: true iff a stored, non-rejected event at that venue and date overlaps [start, end). */
    function CheckConflict(venueId: string, date: string, start: string, end: string): (r: bool)
      reads this
      ensures r <==> exists i :: 0 <= i < |events| && Blocks(events[i], venueId, date, start, end)
    {
      AnyConflict(events, venueId, date, start, end)
    }

    /** `getNotifications`: only the user's notifications, newest first; reading changes nothing. */
    function GetNotifications(userId: string): (r: seq<Notification>)
      reads this
      ensures NewestFirst(r)
      ensures forall n :: n in r <==> n in notifications && n.userId == userId
    {
      NotificationsOf(notifications, userId)
    }

    /** `addNotification`: a new unread notification at index 0, the rest kept in order. */
    method AddNotification(userId: string, message: string, kind: NotificationKind, id: string, now: nat)
      modifies this
      ensures notifications == [Notification(id, userId, message, kind, false, now)] + old(notifications)
      ensures events == old(events)
    {
      notifications := [Notification(id, userId, message, kind, false, now)] + notifications;
    }

    /** `markAllRead`: every notification addressed to the user is marked read, in place. */
    method MarkAllRead(userId: string)
      modifies this
      ensures notifications == MarkRead(old(notifications), userId)
      ensures events == old(events)
    {
      var i := 0;
      while i < |notifications|
        invariant 0 <= i <= |notifications| == |old(notifications)|
        invariant forall k :: 0 <= k < i ==> notifications[k] == MarkedFor(old(notifications)[k], userId)
        invariant forall k :: i <= k < |notifications| ==> notifications[k] == old(notifications)[k]
        invariant events == old(events)
      {
        if notifications[i].userId == userId {
          notifications := notifications[i := notifications[i].(read := true)];
        }
        i := i + 1;
      }
    }
  }
}
