// The booking dialog (components/BookingForm.tsx): its form fields, the
// conflict flag that an effect recomputes from the store whenever the venue,
// date or times change, the guarded submit that appends a PENDING_HOD booking,
// and the rule that applies an AI venue suggestion. The suggestion service is
// an input: its answer is the list `ids`.
module BookingForm {
  import opened Seqs
  import opened Types
  import opened MockData

  datatype FormData = FormData(
    title: string,
    department: string,
    description: string,
    attendees: int,
    date: string,
    startTime: string,
    endTime: string,
    venueId: string)

  /** A fresh form: today's date, 09:00-10:00, 50 attendees, no venue chosen. */
  function InitialForm(today: string): FormData
  {
    FormData("", "Computer Science", "", 50, today, "09:00", "10:00", "")
  }

  /** All four fields the conflict effect depends on are filled in. */
  predicate SlotFilled(f: FormData)
  {
    f.venueId != "" && f.date != "" && f.startTime != "" && f.endTime != ""
  }

  /** What the conflict effect stores: the store's answer when the slot is filled, false otherwise. */
  function ConflictFlag(f: FormData, events: seq<Event>): (r: bool)
    ensures r <==> (SlotFilled(f)
      && exists i :: 0 <= i < |events| && Blocks(events[i], f.venueId, f.date, f.startTime, f.endTime))
  {
    if SlotFilled(f) then AnyConflict(events, f.venueId, f.date, f.startTime, f.endTime) else false
  }

  /** The event `handleSubmit` passes to the store: organizer 'Current User', status PENDING_HOD, no report. */
  function Booking(f: FormData, id: string): (e: Event)
    ensures e.organizer == CurrentUser && e.status == PendingHod && e.report.None?
    ensures e.title == f.title && e.department == f.department && e.description == f.description
    ensures e.venueId == f.venueId && e.date == f.date
    ensures e.startTime == f.startTime && e.endTime == f.endTime && e.id == id
  {
    Event(id, f.title, CurrentUser, f.department, f.venueId, f.date, f.startTime, f.endTime,
          f.description, PendingHod, None)
  }

  /** The event list after a submit: unchanged while the flag is set, one booking longer otherwise. */
  function AfterSubmit(events: seq<Event>, f: FormData, conflict: bool, id: string): (r: seq<Event>)
    ensures conflict ==> r == events
    ensures !conflict ==> |r| == |events| + 1 && r[..|events|] == events && r[|events|] == Booking(f, id)
  {
    if conflict then events else events + [Booking(f, id)]
  }

  /** The browser submits only when the required inputs are filled: title, description, date, start and end time. */
  predicate RequiredFilled(f: FormData)
  {
    f.title != "" && f.description != "" && f.date != "" && f.startTime != "" && f.endTime != ""
  }

  /** The submit button's guard: it is disabled while the flag is set or no venue is chosen. */
  predicate SubmitEnabled(f: FormData, conflict: bool)
  {
    !(conflict || f.venueId == "")
  }

  /** A submit can happen: the required inputs are filled and the button is enabled. */
  predicate Submittable(f: FormData, conflict: bool)
  {
    RequiredFilled(f) && SubmitEnabled(f, conflict)
  }

  /**
   * A booking submitted while the flag reflects the store overlaps no live
   * event at its venue on its date, so a store free of double bookings stays
   * free of them.
   */
  lemma SubmittedBookingIsFree(events: seq<Event>, f: FormData, conflict: bool, id: string)
    requires conflict == ConflictFlag(f, events) && Submittable(f, conflict)
    ensures forall i :: 0 <= i < |events| ==> !Clash(events[i], Booking(f, id))
    ensures NoDoubleBooking(events) ==> NoDoubleBooking(AfterSubmit(events, f, conflict, id))
  {
    var b := Booking(f, id);
    forall i | 0 <= i < |events|
      ensures !Clash(events[i], b)
    {
      assert !Blocks(events[i], f.venueId, f.date, f.startTime, f.endTime);
    }
    if NoDoubleBooking(events) {
      CheckedAddKeepsNoDoubleBooking(events, b);
    }
  }

  /**
   * Without the flag the store would take a clashing booking: a request for
   * 10:00-12:00 at v2 on a day v2 is approved for 09:00-11:00.
   */
  lemma UnguardedSubmitCanDoubleBook()
    ensures var held := Event("x", "T", "o", "d", "v2", "2025-01-10", "09:00", "11:00", "", Approved, None);
      var f := FormData("T", "d", "D", 10, "2025-01-10", "10:00", "12:00", "v2");
      ConflictFlag(f, [held]) && !NoDoubleBooking(AfterSubmit([held], f, false, "y"))
  {
    var held := Event("x", "T", "o", "d", "v2", "2025-01-10", "09:00", "11:00", "", Approved, None);
    var f := FormData("T", "d", "D", 10, "2025-01-10", "10:00", "12:00", "v2");
    OverlapExample();
    var after := AfterSubmit([held], f, false, "y");
    assert Clash(after[0], after[1]);
  }

  class BookingForm {
    const store: MockService
    var formData: FormData
    var conflict: bool
    var suggestedIds: seq<string>
    var aiError: string

    /** The flag agrees with what the effect would compute from the current store and form. */
    predicate FlagIsCurrent()
      reads this, store
    {
      conflict == ConflictFlag(formData, store.events)
    }

    /**
     * The submit button is enabled: no conflict and a venue chosen. While the
     * flag is current and the required inputs are filled, an enabled button
     * means the booking it would submit clashes with no stored event.
     */
    function CanSubmit(): (r: bool)
      reads this, store
      ensures r <==> !conflict && formData.venueId != ""
      ensures r && FlagIsCurrent() && RequiredFilled(formData) ==>
        forall id, i :: 0 <= i < |store.events| ==> !Clash(store.events[i], Booking(formData, id))
    {
      var r := SubmitEnabled(formData, conflict);
      assert r && FlagIsCurrent() && RequiredFilled(formData) ==>
        forall id, i :: 0 <= i < |store.events| ==> !Clash(store.events[i], Booking(formData, id)) by {
        if r && FlagIsCurrent() && RequiredFilled(formData) {
          forall id
            ensures forall i :: 0 <= i < |store.events| ==> !Clash(store.events[i], Booking(formData, id))
          {
            SubmittedBookingIsFree(store.events, formData, conflict, id);
          }
        }
      }
      r
    }

    constructor (store: MockService, today: string)
      ensures this.store == store
      ensures formData == InitialForm(today) && !conflict && suggestedIds == [] && aiError == ""
      ensures FlagIsCurrent()
    {
      this.store := store;
      formData := InitialForm(today);
      conflict := false;
      suggestedIds := [];
      aiError := "";
    }

    /** The conflict effect: ask the store when the slot is filled, clear the flag otherwise. */
    method RefreshConflict()
      modifies this
      ensures conflict == ConflictFlag(formData, store.events)
      ensures formData == old(formData) && suggestedIds == old(suggestedIds) && aiError == old(aiError)
    {
      if formData.venueId != "" && formData.date != "" && formData.startTime != "" && formData.endTime != "" {
        var hasConflict := store.CheckConflict(formData.venueId, formData.date, formData.startTime, formData.endTime);
        conflict := hasConflict;
      } else {
        conflict := false;
      }
    }

    /** An input's change handler followed by the effect, which re-runs only when a slot field changed. */
    method Edit(next: FormData)
      modifies this
      ensures formData == next
      ensures conflict == if SlotChanged(old(formData), next) then ConflictFlag(next, store.events) else old(conflict)
      ensures suggestedIds == old(suggestedIds) && aiError == old(aiError)
      ensures old(FlagIsCurrent()) ==> FlagIsCurrent()
    {
      var changed := SlotChanged(formData, next);
      formData := next;
      if changed {
        RefreshConflict();
      }
    }

    /** `handleSubmit`: return while the flag is set, otherwise append the booking to the store. */
    method HandleSubmit(id: string)
      modifies store
      ensures store.events == AfterSubmit(old(store.events), formData, conflict, id)
      ensures store.notifications == old(store.notifications)
      ensures (old(CanSubmit()) && old(FlagIsCurrent()) && RequiredFilled(formData)
        && NoDoubleBooking(old(store.events))) ==> NoDoubleBooking(store.events)
      ensures (UniqueIds(old(store.events))
        && forall i :: 0 <= i < |old(store.events)| ==> old(store.events)[i].id != id) ==> UniqueIds(store.events)
    {
      if CanSubmit() && FlagIsCurrent() && RequiredFilled(formData) {
        SubmittedBookingIsFree(store.events, formData, conflict, id);
      }
      AddKeepsIds(store.events, Booking(formData, id));
      if conflict {
        return;
      }
      store.AddEvent(Booking(formData, id));
    }

    /**
     * `handleAISuggest` with the service's answer `ids`: with no description it
     * only sets an error; otherwise it records `ids` and selects the first,
     * or keeps the venue and sets an error when `ids` is empty. A new venue
     * re-runs the conflict effect.
     */
    method HandleAISuggest(ids: seq<string>) returns (requested: bool)
      modifies this
      ensures requested <==> old(formData).description != ""
      ensures !requested ==> (aiError == "Please enter a description first."
        && formData == old(formData) && suggestedIds == old(suggestedIds) && conflict == old(conflict))
      ensures requested ==> suggestedIds == ids
      ensures requested && |ids| > 0 ==> formData == old(formData).(venueId := ids[0]) && aiError == ""
      ensures requested && |ids| == 0 ==> (formData == old(formData)
        && aiError == "No specific recommendations found via AI." && conflict == old(conflict))
      ensures formData.venueId == old(formData).venueId || formData.venueId in ids
      ensures old(FlagIsCurrent()) ==> FlagIsCurrent()
    {
      if formData.description == "" {
        aiError := "Please enter a description first.";
        return false;
      }
      aiError := "";
      suggestedIds := ids;
      if |ids| > 0 {
        Edit(formData.(venueId := ids[0]));
      } else {
        aiError := "No specific recommendations found via AI.";
      }
      return true;
    }
  }

  /** The effect's dependency list: venue, date, start and end time. */
  predicate SlotChanged(before: FormData, after: FormData)
  {
    before.venueId != after.venueId || before.date != after.date
    || before.startTime != after.startTime || before.endTime != after.endTime
  }
}
