# HelixFlow booking and approval engine in Dafny

This project models the engine of the HelixFlow university venue-booking app
and proves its rules. Coordinators request venues. An approval chain
(HOD, then Principal, then Admin) signs each request off. Organizers then file
post-event reports. The parts modelled are:

- **The in-memory store `MockService`** (`mock_data.dfy`).
  - It is a class with an event list and a notification list, changed in place
    by `AddEvent`, `UpdateEventStatus`, `SubmitReport`, `AddNotification` and
    `MarkAllRead`.
  - Each state-changing method is proved equal to a function on a `Snapshot`
    of both lists (`UpdateStatus`, `AttachReport`, `MarkRead`). The store's rules
    are lemmas about those functions.
  - `CheckConflict` and `GetNotifications` are pure queries. `GetVenues` and
    `GetEvents` just return the seed venues and the event list.
- **The approval state machine** (`approvals_list.dfy`): the role-to-status
  table, the pending list, and `HandleAction`. `HandleAction` makes the single
  `updateEventStatus` call.
- **The booking dialog** (`booking_form.dfy`): a class holding the form, the
  conflict flag, the AI suggestions and the error text. It has the
  conflict-flag effect, the guarded submit and the AI-suggestion rule.
- **The app shell's refresh logic** (`app.dfy`):
  - the "Report Due" reminder loop;
  - the pending count;
  - the reports tab;
  - the unread badge;
  - the compliance-rate divisor.
- **The analytics aggregations** (`analytics.dfy`):
  - the in-place department reduce, written as a loop;
  - per-venue APPROVED counts;
  - the compliant/pending split.
- **The domain types** (`types.dfy`), plus helpers:
  - `seqs.dfy` stands in for JavaScript's `find` and `filter`;
  - `time_text.dfy` stands in for JavaScript's string `<` and `includes`.

Some values are parameters rather than computed:

- Fresh ids (`Math.random`) are an `id` parameter.
- Clock readings are a `now: nat` parameter.
- The reminder loop's ids are `idFor(k)`, one for each event position `k`.
- The AI service's answer is the list `ids`.

Dates ("YYYY-MM-DD") and times ("HH:MM") stay strings and are compared as
JavaScript compares strings (`LexLess`). `TimeOrder` and `DateOrder` prove that
for zero-padded strings this is the order of minutes and of calendar days.

Some behaviours of the code are worth stating outright:

- `checkConflict` compares the request with every stored event, including one
  with the same id.
- A reminder is suppressed whenever any notification to the current user
  contains both the event's title and "Report Due". So an event whose title
  occurs inside another event's reminder text gets no reminder of its own
  (`App.PrefixTitleSuppressesReminder`).
- Approving as a COORDINATOR is not reachable from the screen, but
  `handleAction` would write APPROVED. `NextStatus` keeps that default.
- The store itself keeps no forward-only rule:
  - `updateEventStatus` takes any status.
  - `submitReport` forces COMPLETED from any status. On a REJECTED booking this
    revives a clash (`MockData.ReportOnRejectedRevivesClash`).

  Forward-only progress and freedom from double booking are therefore proved
  along the UI paths: the approval list, the reports tab and the booking form,
  for a store whose event ids are distinct (see "## Left out").

## Model

| member | source | states |
|---|---|---|
| Types.EnumerationsComplete | types.ts:1-3 | UserRole has exactly four values and ApprovalStatus exactly six, each listed once |
| MockData.SeedData | services/mockData.ts:3-81 | four venues with distinct ids and positive capacity; e1 is APPROVED with a report, e2 is PENDING_HOD without one, and the two event ids differ; the welcome notification is unread and addressed to Current User |
| MockData.TransitionsKeepIds | services/mockData.ts:95-125 | status updates and reports keep every event's id and the list's length, so distinct ids stay distinct |
| MockData.AddKeepsIds | services/mockData.ts:91-93 | appending an event keeps the ids distinct iff they were distinct and its id is not already stored |
| MockData.FindEvent | services/mockData.ts:96 | the result is the first position holding the id, or none exactly when no event has it |
| MockData.StatusLabels | services/mockData.ts:103 | the two string replacements turn PENDING_HOD, PENDING_PRINCIPAL and PENDING_ADMIN into "Pending HOD", "Pending PRINCIPAL" and "Pending ADMIN", and leave APPROVED, REJECTED and COMPLETED as they are |
| MockData.KindFor | services/mockData.ts:104 | SUCCESS exactly for APPROVED or COMPLETED, ERROR exactly for REJECTED, INFO exactly for the pending statuses, never WARNING |
| MockData.UpdateStatus | services/mockData.ts:95-107 | a missing id changes nothing; otherwise only the first matching event's status changes, and one unread notification of the matching kind goes to its organizer at the head of the list |
| MockData.AttachReport | services/mockData.ts:109-125 | a missing id changes nothing; otherwise the event gets the report with status PENDING_REVIEW and becomes COMPLETED whatever it was, only it changes, and one unread SUCCESS notification goes to its organizer at the head |
| MockData.AnyConflict | services/mockData.ts:127-134 | true iff some event at the venue and date, not REJECTED, has start < its endTime and its startTime < end |
| MockData.AnyConflictConcat | services/mockData.ts:128 | the conflict scan over two joined lists is the disjunction of the scans |
| MockData.BackToBackIsFree | services/mockData.ts:132 | a request ending where a booking starts, or starting where it ends, is not blocked by it |
| MockData.IgnoredEventsNeverConflict | services/mockData.ts:129 | inserting a REJECTED event, or one at another venue or on another date, never changes the answer |
| MockData.LiveEventsBlock | services/mockData.ts:129-132 | a pending, APPROVED or COMPLETED event blocks any overlapping request at its venue and date |
| MockData.BlocksIsClockOverlap | services/mockData.ts:132 | for well-formed times the string test is overlap of half-open minute intervals |
| MockData.OverlapExample | services/mockData.ts:127-134 | an APPROVED 09:00-11:00 booking of v2 blocks 10:00-12:00 and not 11:00-13:00 |
| MockData.CheckedAddKeepsNoDoubleBooking | services/mockData.ts:127-134 | appending an event whose slot the check reports free keeps the list free of overlapping live bookings |
| MockData.UpdateKeepsNoDoubleBooking | services/mockData.ts:95-107 | a status update keeps the list free of double bookings unless it revives a REJECTED event |
| MockData.SubmitReportKeepsNoDoubleBooking | services/mockData.ts:109-125 | filing a report on an event that is not REJECTED keeps the list free of double bookings |
| MockData.ReportOnRejectedRevivesClash | services/mockData.ts:117 | filing a report on a REJECTED booking whose slot was re-let produces a double booking |
| MockData.InsertByTime | services/mockData.ts:138 | inserting into a newest-first list keeps it newest-first, adds exactly the one element, and its head is either the new element or the old head |
| MockData.SortNewestFirst | services/mockData.ts:138 | the result is ordered by non-increasing createdAt and is a permutation of the input |
| MockData.NotificationsOf | services/mockData.ts:137-139 | exactly the user's notifications, each as often as stored, newest first |
| MockData.MarkRead | services/mockData.ts:150-154 | same length; each entry is the stored one, marked read exactly when addressed to the user |
| MockData.MarkReadEffect | services/mockData.ts:150-154 | read becomes true exactly on the user's entries; no other field and no other user's entry changes |
| MockData.MarkReadIdempotent | services/mockData.ts:150-154 | marking a second time changes nothing |
| MockData.MockService.constructor | services/mockData.ts:70-81 | the store starts with the two seed events and the welcome notification |
| MockData.MockService.AddEvent | services/mockData.ts:91-93 | the event is appended at the end; earlier events and the notifications are unchanged |
| MockData.MockService.UpdateEventStatus | services/mockData.ts:95-107 | the new store is UpdateStatus of the old one |
| MockData.MockService.SubmitReport | services/mockData.ts:109-125 | the new store is AttachReport of the old one |
| MockData.MockService.CheckConflict | services/mockData.ts:127-134 | true iff a stored event blocks the slot; reads the store without changing it |
| MockData.MockService.GetNotifications | services/mockData.ts:137-139 | only the user's notifications, all of them, newest first; reads the store without changing it |
| MockData.MockService.AddNotification | services/mockData.ts:141-148 | a new unread notification at index 0, the rest kept in order, events unchanged |
| MockData.MockService.MarkAllRead | services/mockData.ts:150-154 | the loop leaves the notifications equal to MarkRead of the old ones and the events unchanged |
| TimeText.TimeOrder | services/mockData.ts:132 | for zero-padded HH:MM strings, string < is < on minutes since midnight and string equality is equal minutes |
| TimeText.DateOrder | App.tsx:44 | for zero-padded YYYY-MM-DD strings, string < is < on the YYYYMMDD day number |
| ApprovalsList.RelevantStatus | components/ApprovalsList.tsx:15-18 | no status exactly for COORDINATOR; the others get a pending status |
| ApprovalsList.RelevantStatusIsOneToOne | components/ApprovalsList.tsx:15-18 | different roles act on different statuses, and each pending status has a role |
| ApprovalsList.PendingEvents | components/ApprovalsList.tsx:20 | exactly the events whose status is the role's status, each as often as stored; empty for COORDINATOR |
| ApprovalsList.PendingEventsInOrder | components/ApprovalsList.tsx:20 | the list keeps input order: it distributes over concatenation |
| ApprovalsList.ShowsApprovals | components/ApprovalsList.tsx:37-39 | the list is shown iff the role is not COORDINATOR |
| ApprovalsList.NextStatusTable | components/ApprovalsList.tsx:22-33 | reject gives REJECTED for every role; approve gives PENDING_PRINCIPAL for HOD, PENDING_ADMIN for PRINCIPAL, APPROVED for ADMIN |
| ApprovalsList.ListedActionMovesOneStage | components/ApprovalsList.tsx:20-32 | approving a listed event moves it exactly one stage along the chain, never back and never past APPROVED; rejecting takes it off the chain |
| ApprovalsList.ListedActionOnStore | components/ApprovalsList.tsx:22-35 | acting on a listed event with distinct ids changes only its status, to the next one, and keeps the store free of double bookings |
| ApprovalsList.HandleAction | components/ApprovalsList.tsx:22-35 | the store afterwards is one UpdateStatus on the given id with NextStatus(role, action) |
| BookingForm.ConflictFlag | components/BookingForm.tsx:37-49 | true iff venue, date, start and end are all filled and some stored event blocks that slot |
| BookingForm.Booking | components/BookingForm.tsx:75-86 | the new event copies the form's title, department, venue, date, times and description, and has organizer Current User, status PENDING_HOD and no report |
| BookingForm.AfterSubmit | components/BookingForm.tsx:71-88 | with the flag set the events are unchanged; otherwise exactly the booking is appended |
| BookingForm.SubmittedBookingIsFree | components/BookingForm.tsx:73-86 | a booking submitted while the flag matches the store clashes with no stored event, so the store stays free of double bookings |
| BookingForm.UnguardedSubmitCanDoubleBook | components/BookingForm.tsx:73 | without the flag the same submit would create a double booking |
| BookingForm.BookingForm.CanSubmit | components/BookingForm.tsx:251 | the submit button is enabled iff the flag is clear and a venue is chosen; while the flag is current and the required inputs are filled, an enabled button means the booking clashes with no stored event |
| BookingForm.BookingForm.constructor | components/BookingForm.tsx:18-29 | the form starts at today 09:00-10:00 with no venue, the flag clear and consistent with the store |
| BookingForm.BookingForm.RefreshConflict | components/BookingForm.tsx:37-49 | the flag becomes ConflictFlag of the form and the store; nothing else changes |
| BookingForm.BookingForm.Edit | components/BookingForm.tsx:37-49 | the effect re-runs only when venue, date or a time changed, so a flag consistent with the store stays consistent |
| BookingForm.BookingForm.HandleSubmit | components/BookingForm.tsx:71-88 | the store's events become AfterSubmit of the old ones with the current form and flag; notifications are unchanged; submitting through an enabled button with a current flag keeps the store free of double bookings, and a fresh id keeps the ids distinct |
| BookingForm.BookingForm.HandleAISuggest | components/BookingForm.tsx:51-69 | no description: only the error is set, nothing is requested. Otherwise the ids are recorded; a non-empty list selects its first id, an empty one keeps the venue and sets the error. The venue is always unchanged or a suggested one |
| App.ReminderNote | App.tsx:49-53 | the reminder goes to Current User as an unread WARNING and its message passes the duplicate test for its title |
| App.GuardSeesStore | App.tsx:45-46 | searching getNotifications('Current User') finds a reminder iff the store holds one for that user |
| App.HasReminderGrows | App.tsx:46 | adding notifications never hides an existing reminder |
| App.NoteIsReminder | App.tsx:46-53 | after the reminder is added, the guard suppresses it on every later check |
| App.RemindersShape | App.tsx:43-56 | the pass only prepends, at most one per event, each to Current User, WARNING and unread |
| App.RemindersCover | App.tsx:43-56 | after the pass every APPROVED, past, unreported event of Current User has a reminder |
| App.RemindersStable | App.tsx:43-56 | a pass over events that all have reminders adds nothing |
| App.RemindersIdempotent | App.tsx:42-56 | running the check a second time adds nothing |
| App.SameTitleRemindedOnce | App.tsx:45-53 | two overdue events with one title get a single reminder in one pass, because the guard re-reads the list |
| App.PrefixTitleSuppressesReminder | App.tsx:46 | the reminder for "Party 2" suppresses the one for "Party" when visited first |
| App.CheckReportReminders | App.tsx:42-56 | the loop leaves the notifications equal to Reminders of the old events and notifications; events are unchanged |
| App.PendingCount | App.tsx:65-70 | the number of events in the role's approval list; 0 for COORDINATOR |
| App.ReportsTab | App.tsx:112 | exactly the APPROVED or COMPLETED events |
| App.ReportsTabOffers | App.tsx:123-134 | within the tab "Submit Report" is offered exactly for APPROVED events |
| App.ReportFromTabCompletes | App.tsx:123-134 | filing a report from the tab keeps the event in the tab, with the report and no button |
| App.UnreadCount | App.tsx:227 | the badge equals the number of the current user's unread notifications in the store |
| App.MarkAllReadClearsBadge | App.tsx:227 | after markAllRead('Current User') the badge is 0 |
| App.NewNotificationBadge | App.tsx:227 | a new unread notification raises the badge by one exactly when it is addressed to Current User |
| App.ComplianceDenominator | App.tsx:180 | the divisor is at least 1, and equals the number of passed events when there are any |
| App.ComplianceAtMostAll | App.tsx:180 | the COMPLETED count never exceeds the divisor |
| Analytics.Departments | components/Analytics.tsx:13-18 | each department of the events appears once, and only those |
| Analytics.DepartmentsInFirstAppearanceOrder | components/Analytics.tsx:13-18 | the departments are listed in order of first appearance |
| Analytics.DepartmentTotals | components/Analytics.tsx:13-18 | the per-department counts sum to the number of events |
| Analytics.BumpStep | components/Analytics.tsx:14-15 | bumping a listed department's entry gives the chart of the events plus one more of it |
| Analytics.PushStep | components/Analytics.tsx:16 | pushing {department, 1} for a new department gives the chart of the events plus its first event |
| Analytics.DeptData | components/Analytics.tsx:13-18 | the reduce yields one entry per distinct department in first-appearance order, each with its event count, summing to the number of events |
| Analytics.ShortName | components/Analytics.tsx:22 | the prefix of the name before its first space, or the whole name when it has none |
| Analytics.VenueUse | components/Analytics.tsx:23 | the venue's count of APPROVED events: 0 on no events, never above the total APPROVED count |
| Analytics.VenueUseSnoc | components/Analytics.tsx:23 | one more event raises a venue's count by one exactly when it is APPROVED and at that venue |
| Analytics.VenueData | components/Analytics.tsx:21-24 | one bar per venue in venue order: its label is the venue name's first word (a space-free prefix) and its value is that venue's APPROVED count |
| Analytics.ReportLowersVenueUse | components/Analytics.tsx:23 | filing the report of an APPROVED event lowers its venue's bar by one and no other bar, because COMPLETED is not counted |
| Analytics.PassedEvents | components/Analytics.tsx:27 | exactly the APPROVED or COMPLETED events |
| Analytics.ComplianceData | components/Analytics.tsx:28-32 | Compliant is the COMPLETED count and Pending the APPROVED count; they sum to the passed events |

## Left out

- Ids and clocks are parameters. Random ids come from `Math.random`, and ISO timestamps from `new Date()`.
  - Timestamps are natural numbers, not ISO strings.
  - One reminder pass uses one clock reading for every note it adds.
- React state, effects and re-rendering are left out, and so are the `onUpdate`/`onSuccess`/`onClose` callbacks. So are the `loadingAI` and `step` fields and the theme.
  - The booking form's effect is modelled as a method run after each edit.
- The AI services are left out: the prompt text, the asynchronous call and the chat widget. Their answer is an input.
  - The model does not capture the store changing while `suggestVenue` is awaited.
- Floating point is left out: `Math.round` of the compliance percentage and the average-attendance card.
- Update through shared object references is not modelled. The source mutates event and notification objects that the shell's copied arrays also reference; the model replaces elements of the store's sequences instead.
- Strings are sequences of Dafny characters. JavaScript compares UTF-16 code units, which differs only outside the Basic Multilingual Plane.
- The report form's file reading and the calendar and notification views are left out as presentation. So are the sidebar and the "Your Recent Requests" list.
- `MockData.SortNewestFirst`: does not prove that notifications with equal timestamps keep their stored order, which JavaScript's stable sort guarantees. Only the newest-first order and the permutation are proved.
- `MockData.MockService.GetVenues` and `MockData.MockService.GetEvents` return the venue constant and the event field. They carry no contract of their own.
- Generated ids are taken to be distinct. `Math.random` ids can collide, and with a repeated id `find` acts on the first match, which may be a REJECTED event. The lemmas that act on one event by id (`ApprovalsList.ListedActionOnStore`, `App.ReportFromTabCompletes`, `Analytics.ReportLowersVenueUse`) require `UniqueIds`. It holds for the seed store (`MockData.SeedData`), status updates and reports keep it (`MockData.TransitionsKeepIds`), and adding an event keeps it exactly when the new id is fresh (`MockData.AddKeepsIds`).
