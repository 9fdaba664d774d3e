// The approval state machine of the approvals screen
// (components/ApprovalsList.tsx): which status each role signs off, the list
// of events waiting for that role, and the approve/reject step that writes the
// next status into the store. The screen's re-render callback is not modelled.
module ApprovalsList {
  import opened Seqs
  import opened Types
  import opened MockData

  datatype Action = Approve | Reject

  /** The status a role acts upon; a coordinator acts on none. */
  function RelevantStatus(role: UserRole): (r: Option<ApprovalStatus>)
    ensures r.None? <==> role == Coordinator
    ensures r.Some? ==> IsPending(r.value)
  {
    match role
    case Hod => Some(PendingHod)
    case Principal => Some(PendingPrincipal)
    case Admin => Some(PendingAdmin)
    case Coordinator => None
  }

  /** Different roles sign off different stages, and every pending stage has its role. */
  lemma RelevantStatusIsOneToOne(a: UserRole, b: UserRole)
    ensures RelevantStatus(a).Some? && RelevantStatus(a) == RelevantStatus(b) ==> a == b
    ensures forall s :: IsPending(s) ==> exists r :: RelevantStatus(r) == Some(s)
  {
    forall s | IsPending(s)
      ensures exists r :: RelevantStatus(r) == Some(s)
    {
      match s
      case PendingHod => assert RelevantStatus(Hod) == Some(s);
      case PendingPrincipal => assert RelevantStatus(Principal) == Some(s);
      case PendingAdmin => assert RelevantStatus(Admin) == Some(s);
    }
  }

  function AwaitedBy(role: UserRole): Event -> bool
  {
    (e: Event) => RelevantStatus(role) == Some(e.status)
  }

  /** The events whose status is the one the role signs off, in store order; a coordinator has none. */
  function PendingEvents(role: UserRole, events: seq<Event>): (r: seq<Event>)
    ensures forall e :: e in r <==> e in events && RelevantStatus(role) == Some(e.status)
    ensures role == Coordinator ==> r == []
    ensures forall e :: multiset(r)[e] == if RelevantStatus(role) == Some(e.status) then multiset(events)[e] else 0
  {
    var r := Filter(events, AwaitedBy(role));
    forall e
      ensures multiset(r)[e] == if RelevantStatus(role) == Some(e.status) then multiset(events)[e] else 0
    {
      FilterMultiplicity(events, AwaitedBy(role), e);
    }
    forall e | e in r
      ensures e in events && RelevantStatus(role) == Some(e.status)
    {
      var i :| 0 <= i < |r| && r[i] == e;
      assert AwaitedBy(role)(r[i]);
    }
    forall e | e in events && RelevantStatus(role) == Some(e.status)
      ensures e in r
    {
      var i :| 0 <= i < |events| && events[i] == e;
      assert AwaitedBy(role)(events[i]);
    }
    if role == Coordinator then
      FilterNone(events, AwaitedBy(role));
      r
    else r
  }

  /** The list is kept in input order: it distributes over concatenation. */
  lemma PendingEventsInOrder(role: UserRole, a: seq<Event>, b: seq<Event>)
    ensures PendingEvents(role, a + b) == PendingEvents(role, a) + PendingEvents(role, b)
  {
    FilterConcat(a, b, AwaitedBy(role));
  }

  /** The screen shows the approval list unless there is no relevant status and the role is not ADMIN. */
  function ShowsApprovals(role: UserRole): (r: bool)
    ensures r <==> role != Coordinator
  {
    !(RelevantStatus(role).None? && role != Admin)
  }

  /** The status `handleAction` writes: REJECTED on reject; on approve, the next stage for the role, APPROVED by default. */
  function NextStatus(role: UserRole, action: Action): ApprovalStatus
  {
    match action
    case Reject => Rejected
    case Approve =>
      if role == Hod then PendingPrincipal
      else if role == Principal then PendingAdmin
      else Approved
  }

  /** Position in the approval chain PENDING_HOD, PENDING_PRINCIPAL, PENDING_ADMIN, APPROVED; off the chain otherwise. */
  function ChainPosition(s: ApprovalStatus): Option<nat>
  {
    match s
    case PendingHod => Some(0)
    case PendingPrincipal => Some(1)
    case PendingAdmin => Some(2)
    case Approved => Some(3)
    case Rejected => None
    case Completed => None
  }

  /** Reject ends in REJECTED for every role; approve maps HOD, PRINCIPAL, ADMIN to the next three chain stages. */
  lemma NextStatusTable(role: UserRole)
    ensures NextStatus(role, Reject) == Rejected
    ensures role == Hod ==> NextStatus(role, Approve) == PendingPrincipal
    ensures role == Principal ==> NextStatus(role, Approve) == PendingAdmin
    ensures role == Admin ==> NextStatus(role, Approve) == Approved
    ensures ChainPosition(NextStatus(role, Approve)).Some?
  {
  }

  /**
   * For an event taken from the role's list, approving moves it exactly one
   * stage along the chain, never backwards and never past APPROVED; rejecting
   * takes it off the chain.
   */
  lemma ListedActionMovesOneStage(role: UserRole, events: seq<Event>, e: Event)
    requires e in PendingEvents(role, events)
    ensures ChainPosition(e.status).Some? && ChainPosition(e.status).value < 3
    ensures ChainPosition(NextStatus(role, Approve)) == Some(ChainPosition(e.status).value + 1)
    ensures NextStatus(role, Reject) == Rejected && ChainPosition(NextStatus(role, Reject)).None?
  {
  }

  /** With distinct ids, looking up an event's id finds that event. */
  lemma FindsOwnId(events: seq<Event>, i: nat)
    requires UniqueIds(events) && i < |events|
    ensures FindEvent(events, events[i].id) == Some(i)
  {
    var r := FindEvent(events, events[i].id);
    assert r.Some?;
    assert !(r.value < i);
    assert !(r.value > i);
  }

  /**
   * Acting on a listed event of a store with distinct ids sets exactly that
   * event's status to the next one and keeps the store free of double
   * bookings: a listed event is never REJECTED, so nothing is revived.
   */
  lemma ListedActionOnStore(st: Snapshot, role: UserRole, i: nat, action: Action, id: string, now: nat)
    requires UniqueIds(st.events) && NoDoubleBooking(st.events) && i < |st.events|
    requires st.events[i] in PendingEvents(role, st.events)
    ensures var r := UpdateStatus(st, st.events[i].id, NextStatus(role, action), id, now);
      && |r.events| == |st.events|
      && r.events[i] == st.events[i].(status := NextStatus(role, action))
      && (forall j :: 0 <= j < |st.events| && j != i ==> r.events[j] == st.events[j])
      && NoDoubleBooking(r.events)
  {
    FindsOwnId(st.events, i);
    UpdateKeepsNoDoubleBooking(st, st.events[i].id, NextStatus(role, action), id, now);
  }

  /** `handleAction`: one `updateEventStatus` call on the given id with the status chosen by the if-chain. */
  method HandleAction(store: MockService, role: UserRole, eventId: string, action: Action, id: string, now: nat)
    modifies store
    ensures store.State() == UpdateStatus(old(store.State()), eventId, NextStatus(role, action), id, now)
  {
    if action == Reject {
      store.UpdateEventStatus(eventId, Rejected, id, now);
    } else {
      var nextStatus := Approved;
      if role == Hod {
        nextStatus := PendingPrincipal;
      } else if role == Principal {
        nextStatus := PendingAdmin;
      } else if role == Admin {
        nextStatus := Approved;
      }
      store.UpdateEventStatus(eventId, nextStatus, id, now);
    }
  }
}
