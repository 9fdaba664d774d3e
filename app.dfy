// The refresh logic of the application shell (App.tsx): the "Report Due"
// reminder pass over the store's events, the pending-approval count, the
// reports tab, the unread badge and the compliance-rate denominator. The
// notification list the shell shows is the store's
// `getNotifications('Current User')`.
module App {
  import opened Seqs
  import opened Types
  import opened TimeText
  import opened MockData
  import opened ApprovalsList

  // ----- Report reminders -----

  /** An event owes a report reminder: approved, dated before today, no report yet, organized by the current user. */
  predicate NeedsReminder(e: Event, today: string)
  {
    e.status == Approved && LexLess(e.date, today) && e.report.None? && e.organizer == CurrentUser
  }

  const ReportDue: string := "Report Due"
  const ReminderLead: string := ": Please submit the post-event report for \""
  const ReminderTail: string := "\" to maintain compliance."

  /** `Report Due: Please submit the post-event report for "<title>" to maintain compliance.` */
  function ReminderMessage(title: string): string
  {
    ReportDue + ReminderLead + title + ReminderTail
  }

  /** A message assembled from four parts contains its first part and anything its third part contains. */
  lemma FourParts(a: string, b: string, c: string, d: string, t: string)
    requires Contains(c, t)
    ensures Contains(a + b + c + d, a) && Contains(a + b + c + d, t)
  {
    assert (a + b + c + d)[..|a|] == a;
    assert OccursAt(a + b + c + d, a, 0);
    ContainsWithin(a + b, c, d, t);
  }

  /** The duplicate test: the message mentions the title and "Report Due". */
  predicate IsReminderFor(n: Notification, title: string)
  {
    Contains(n.message, title) && Contains(n.message, ReportDue)
  }

  /** The current user's notifications already hold a reminder for `title`. */
  predicate HasReminder(ns: seq<Notification>, title: string)
  {
    exists n :: n in ns && n.userId == CurrentUser && IsReminderFor(n, title)
  }

  /** The guard reads `getNotifications('Current User')`; searching that copy is searching the store. */
  lemma GuardSeesStore(ns: seq<Notification>, title: string)
    ensures HasReminder(ns, title) <==> exists n :: n in NotificationsOf(ns, CurrentUser) && IsReminderFor(n, title)
  {
  }

  /** The reminder the pass adds: to the current user, WARNING, unread. */
  function ReminderNote(title: string, id: string, now: nat): (n: Notification)
    ensures n.userId == CurrentUser && n.kind == Warning && !n.read
    ensures IsReminderFor(n, title)
  {
    ContainsMiddle([], title, []);
    assert [] + title + [] == title;
    FourParts(ReportDue, ReminderLead, title, ReminderTail, title);
    Notification(id, CurrentUser, ReminderMessage(title), Warning, false, now)
  }

  /** One iteration of the reminder loop for event `e`. */
  function ReminderStep(ns: seq<Notification>, e: Event, today: string, id: string, now: nat): seq<Notification>
  {
    if NeedsReminder(e, today) && !HasReminder(ns, e.title) then [ReminderNote(e.title, id, now)] + ns else ns
  }

  /** The notification list after the loop has visited `events` in order; the k-th event's reminder gets id `idFor(k)`. */
  function Reminders(events: seq<Event>, ns: seq<Notification>, today: string, idFor: nat -> string, now: nat)
    : seq<Notification>
  {
    if |events| == 0 then ns
    else
      var k := |events| - 1;
      ReminderStep(Reminders(events[..k], ns, today, idFor, now), events[k], today, idFor(k), now)
  }

  /** Adding notifications never hides an existing reminder. */
  lemma HasReminderGrows(ns: seq<Notification>, added: seq<Notification>, title: string)
    requires HasReminder(ns, title)
    ensures HasReminder(added + ns, title)
  {
    var n :| n in ns && n.userId == CurrentUser && IsReminderFor(n, title);
    assert n in added + ns;
  }

  /** The note the pass adds counts as a reminder for its event on every later check. */
  lemma NoteIsReminder(ns: seq<Notification>, title: string, id: string, now: nat)
    ensures HasReminder([ReminderNote(title, id, now)] + ns, title)
  {
    var n := ReminderNote(title, id, now);
    assert n in [n] + ns;
  }

  /**
   * The pass only prepends notifications, each addressed to the current user,
   * of type WARNING and unread, and adds at most one per visited event.
   */
  lemma {:induction false} RemindersShape(events: seq<Event>, ns: seq<Notification>, today: string, idFor: nat -> string, now: nat)
    ensures var r := Reminders(events, ns, today, idFor, now);
      && |ns| <= |r| <= |ns| + |events|
      && r[|r| - |ns|..] == ns
      && forall i :: 0 <= i < |r| - |ns| ==> r[i].userId == CurrentUser && r[i].kind == Warning && !r[i].read
  {
    if |events| > 0 {
      var k := |events| - 1;
      RemindersShape(events[..k], ns, today, idFor, now);
      var before := Reminders(events[..k], ns, today, idFor, now);
      var r := ReminderStep(before, events[k], today, idFor(k), now);
      assert r == Reminders(events, ns, today, idFor, now);
      if r != before {
        var note := ReminderNote(events[k].title, idFor(k), now);
        assert r == [note] + before;
        assert r[|r| - |ns|..] == before[|before| - |ns|..];
        assert forall i :: 1 <= i < |r| - |ns| ==> r[i] == before[i - 1];
      }
    }
  }

  /** After a pass, every event that needs a reminder has one. */
  lemma {:induction false} RemindersCover(events: seq<Event>, ns: seq<Notification>, today: string, idFor: nat -> string, now: nat)
    ensures forall j :: 0 <= j < |events| && NeedsReminder(events[j], today) ==>
      HasReminder(Reminders(events, ns, today, idFor, now), events[j].title)
  {
    if |events| > 0 {
      var k := |events| - 1;
      var before := Reminders(events[..k], ns, today, idFor, now);
      RemindersCover(events[..k], ns, today, idFor, now);
      var e := events[k];
      var after := ReminderStep(before, e, today, idFor(k), now);
      forall j | 0 <= j < |events| && NeedsReminder(events[j], today)
        ensures HasReminder(after, events[j].title)
      {
        if after != before {
          var note := ReminderNote(e.title, idFor(k), now);
          assert after == [note] + before;
          if j < k {
            assert events[..k][j] == events[j];
            HasReminderGrows(before, [note], events[j].title);
          } else {
            NoteIsReminder(before, e.title, idFor(k), now);
          }
        } else if j < k {
          assert events[..k][j] == events[j];
        }
      }
    }
  }

  /** A pass over events that all have their reminders adds nothing. */
  lemma {:induction false} RemindersStable(events: seq<Event>, ns: seq<Notification>, today: string, idFor: nat -> string, now: nat)
    requires forall j :: 0 <= j < |events| && NeedsReminder(events[j], today) ==> HasReminder(ns, events[j].title)
    ensures Reminders(events, ns, today, idFor, now) == ns
  {
    if |events| > 0 {
      var k := |events| - 1;
      forall j | 0 <= j < k && NeedsReminder(events[..k][j], today)
        ensures HasReminder(ns, events[..k][j].title)
      {
        assert events[..k][j] == events[j];
      }
      RemindersStable(events[..k], ns, today, idFor, now);
    }
  }

  /** Rerunning the reminder check over the same events adds nothing. */
  lemma RemindersIdempotent(events: seq<Event>, ns: seq<Notification>, today: string,
                            idFor: nat -> string, idFor': nat -> string, now: nat, now': nat)
    ensures var once := Reminders(events, ns, today, idFor, now);
      Reminders(events, once, today, idFor', now') == once
  {
    RemindersCover(events, ns, today, idFor, now);
    RemindersStable(events, Reminders(events, ns, today, idFor, now), today, idFor', now');
  }

  /** Two overdue events with one title get a single reminder: the guard re-reads the list after the first. */
  lemma SameTitleRemindedOnce(e1: Event, e2: Event, ns: seq<Notification>, today: string, idFor: nat -> string, now: nat)
    requires NeedsReminder(e1, today) && NeedsReminder(e2, today) && e1.title == e2.title
    requires !HasReminder(ns, e1.title)
    ensures Reminders([e1, e2], ns, today, idFor, now) == [ReminderNote(e1.title, idFor(0), now)] + ns
  {
    assert [e1, e2][..1] == [e1];
    assert [e1][..0] == [];
    var note := ReminderNote(e1.title, idFor(0), now);
    assert Reminders([], ns, today, idFor, now) == ns;
    assert Reminders([e1], ns, today, idFor, now) == [note] + ns;
    NoteIsReminder(ns, e1.title, idFor(0), now);
    assert ReminderStep([note] + ns, e2, today, idFor(1), now) == [note] + ns;
  }

  /**
   * The duplicate test is containment, so a reminder for "Party 2" also
   * counts as one for "Party": visited in that order, "Party" gets none.
   */
  lemma PrefixTitleSuppressesReminder(e1: Event, e2: Event, today: string, idFor: nat -> string, now: nat)
    requires NeedsReminder(e1, today) && NeedsReminder(e2, today)
    requires e1.title == "Party 2" && e2.title == "Party"
    ensures Reminders([e1, e2], [], today, idFor, now) == [ReminderNote("Party 2", idFor(0), now)]
  {
    assert [e1, e2][..1] == [e1];
    assert [e1][..0] == [];
    var note := ReminderNote("Party 2", idFor(0), now);
    assert !HasReminder([], e1.title);
    ContainsMiddle([], "Party", " 2");
    assert [] + "Party" + " 2" == "Party 2";
    FourParts(ReportDue, ReminderLead, "Party 2", ReminderTail, "Party");
    assert IsReminderFor(note, "Party");
    assert note in [note];
    assert Reminders([], [], today, idFor, now) == [];
    assert Reminders([e1], [], today, idFor, now) == [note];
    assert ReminderStep([note], e2, today, idFor(1), now) == [note];
  }

  /** The refresh effect's reminder loop, visiting the store's events in order. */
  method CheckReportReminders(store: MockService, today: string, idFor: nat -> string, now: nat)
    modifies store
    ensures store.events == old(store.events)
    ensures store.notifications == Reminders(old(store.events), old(store.notifications), today, idFor, now)
  {
    var currentEvents := store.GetEvents();
    var i := 0;
    while i < |currentEvents|
      invariant 0 <= i <= |currentEvents|
      invariant store.events == currentEvents == old(store.events)
      invariant store.notifications == Reminders(currentEvents[..i], old(store.notifications), today, idFor, now)
    {
      var e := currentEvents[i];
      ghost var before := store.notifications;
      if e.status == Approved && LexLess(e.date, today) && e.report.None? && e.organizer == CurrentUser {
        var userNotifs := store.GetNotifications(CurrentUser);
        var hasReminder := exists n :: n in userNotifs && IsReminderFor(n, e.title);
        GuardSeesStore(store.notifications, e.title);
        if !hasReminder {
          store.AddNotification(CurrentUser, ReminderMessage(e.title), Warning, idFor(i), now);
        }
      }
      assert store.notifications == ReminderStep(before, e, today, idFor(i), now);
      assert currentEvents[..i + 1][..i] == currentEvents[..i];
      i := i + 1;
    }
    assert currentEvents[..i] == currentEvents;
  }

  // ----- Counters and the reports tab -----

  function StatusIs(s: ApprovalStatus): Event -> bool
  {
    (e: Event) => e.status == s
  }

  /** `getPendingCount`: the number of events in the role's pending status; 0 for a coordinator. */
  function PendingCount(role: UserRole, events: seq<Event>): (r: nat)
    ensures r == |PendingEvents(role, events)|
    ensures role == Coordinator ==> r == 0
  {
    if role == Hod then
      FilterExt(events, StatusIs(PendingHod), AwaitedBy(role));
      |Filter(events, StatusIs(PendingHod))|
    else if role == Principal then
      FilterExt(events, StatusIs(PendingPrincipal), AwaitedBy(role));
      |Filter(events, StatusIs(PendingPrincipal))|
    else if role == Admin then
      FilterExt(events, StatusIs(PendingAdmin), AwaitedBy(role));
      |Filter(events, StatusIs(PendingAdmin))|
    else 0
  }

  /** An event that took place as approved: APPROVED or COMPLETED. */
  predicate IsPassed(e: Event)
  {
    e.status == Approved || e.status == Completed
  }

  /** The reports tab: the approved and completed events, in store order. */
  function ReportsTab(events: seq<Event>): (r: seq<Event>)
    ensures forall e :: e in r <==> e in events && (e.status == Approved || e.status == Completed)
  {
    var r := Filter(events, IsPassed);
    forall e | e in r
      ensures e in events && IsPassed(e)
    {
      var i :| 0 <= i < |r| && r[i] == e;
    }
    forall e | e in events && IsPassed(e)
      ensures e in r
    {
      var i :| 0 <= i < |events| && events[i] == e;
    }
    r
  }

  /** A row shows "Report Submitted" for COMPLETED and the "Submit Report" button otherwise. */
  predicate OffersSubmitReport(e: Event)
  {
    e.status != Completed
  }

  /** Within the tab, the button is offered exactly for APPROVED events. */
  lemma ReportsTabOffers(events: seq<Event>)
    ensures forall e :: e in ReportsTab(events) ==> (OffersSubmitReport(e) <==> e.status == Approved)
  {
  }

  /**
   * Filing a report from the tab (with distinct ids) keeps the event in the
   * tab and turns its button into "Report Submitted": the tab only moves forward.
   */
  lemma ReportFromTabCompletes(st: Snapshot, i: nat, draft: ReportDraft, id: string, now: nat)
    requires UniqueIds(st.events) && i < |st.events|
    requires st.events[i] in ReportsTab(st.events) && OffersSubmitReport(st.events[i])
    ensures var after := AttachReport(st, st.events[i].id, draft, id, now).events;
      && after[i] in ReportsTab(after) && !OffersSubmitReport(after[i])
      && after[i].report == Some(FiledReport(draft, now))
  {
    FindsOwnId(st.events, i);
  }

  // ----- Unread badge -----

  predicate Unread(n: Notification)
  {
    !n.read
  }

  function UnreadTo(userId: string): Notification -> bool
  {
    (n: Notification) => n.userId == userId && !n.read
  }

  /** The sidebar badge: unread entries of the shell's list, which is `getNotifications('Current User')`. */
  function UnreadCount(ns: seq<Notification>): (r: nat)
    ensures r == |Filter(ns, UnreadTo(CurrentUser))|
  {
    var shown := NotificationsOf(ns, CurrentUser);
    FilterPermutation(shown, Filter(ns, ToUser(CurrentUser)), Unread);
    FilterFilter(ns, ToUser(CurrentUser), Unread, UnreadTo(CurrentUser));
    |Filter(shown, Unread)|
  }

  /** After `markAllRead('Current User')` the badge shows zero. */
  lemma MarkAllReadClearsBadge(ns: seq<Notification>)
    ensures UnreadCount(MarkRead(ns, CurrentUser)) == 0
  {
    var m := MarkRead(ns, CurrentUser);
    FilterNone(m, UnreadTo(CurrentUser));
  }

  /** A new notification to the current user raises the badge by one; one to another user leaves it. */
  lemma NewNotificationBadge(ns: seq<Notification>, n: Notification)
    requires !n.read
    ensures UnreadCount([n] + ns) == UnreadCount(ns) + (if n.userId == CurrentUser then 1 else 0)
  {
    FilterConcat([n], ns, UnreadTo(CurrentUser));
    FilterSingle(n, UnreadTo(CurrentUser));
  }

  // ----- Compliance -----

  /** The compliance-rate divisor: the number of passed events, or 1 when there are none. */
  function ComplianceDenominator(events: seq<Event>): (d: nat)
    ensures d >= 1
    ensures |ReportsTab(events)| > 0 ==> d == |ReportsTab(events)|
  {
    var passed := |ReportsTab(events)|;
    if passed == 0 then 1 else passed
  }

  /** The numerator never exceeds the divisor, so the rate is at most 100%. */
  lemma ComplianceAtMostAll(events: seq<Event>)
    ensures |Filter(events, StatusIs(Completed))| <= ComplianceDenominator(events)
  {
    FilterFilter(events, IsPassed, StatusIs(Completed), StatusIs(Completed));
  }
}
