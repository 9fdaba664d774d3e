// The analytics view (components/Analytics.tsx): events per department, built
// by a reduce that bumps or appends entries of its accumulator in place;
// APPROVED events per venue under the venue's short name; and the
// compliant/pending split of the events that passed approval. The average
// attendance card divides with floating point and is not modelled.
module Analytics {
  import opened Seqs
  import opened Types
  import opened MockData
  import opened ApprovalsList
  import opened App

  /** One bar or slice of a chart: a label and a count. */
  datatype Bar = Bar(name: string, value: nat)

  // ----- Events by department -----

  predicate Distinct(ds: seq<string>)
  {
    forall i, j :: 0 <= i < j < |ds| ==> ds[i] != ds[j]
  }

  /** Some event belongs to department `d`. */
  predicate HasDepartment(events: seq<Event>, d: string)
  {
    exists i :: 0 <= i < |events| && events[i].department == d
  }

  /** The departments of `events`, each once, in order of first appearance. */
  function Departments(events: seq<Event>): (ds: seq<string>)
    ensures Distinct(ds)
    ensures forall d :: d in ds <==> HasDepartment(events, d)
  {
    if |events| == 0 then []
    else
      var n := |events| - 1;
      var ds := Departments(events[..n]);
      assert forall d :: HasDepartment(events[..n], d) ==> HasDepartment(events, d) by {
        forall d | HasDepartment(events[..n], d)
          ensures HasDepartment(events, d)
        {
          var i :| 0 <= i < n && events[..n][i].department == d;
          assert events[i].department == d;
        }
      }
      assert forall d :: HasDepartment(events, d) ==> HasDepartment(events[..n], d) || d == events[n].department by {
        forall d | HasDepartment(events, d) && d != events[n].department
          ensures HasDepartment(events[..n], d)
        {
          var i :| 0 <= i < |events| && events[i].department == d;
          assert events[..n][i].department == d;
        }
      }
      if events[n].department in ds then ds else ds + [events[n].department]
  }

  /** Every occurrence of department `later` is preceded by an occurrence of `earlier`. */
  predicate PrecededBy(events: seq<Event>, earlier: string, later: string)
  {
    forall i2 :: 0 <= i2 < |events| && events[i2].department == later ==>
      exists i1 :: 0 <= i1 < i2 && events[i1].department == earlier
  }

  /** One more event keeps `earlier` ahead of `later` when an `earlier` event already exists for a new `later` one. */
  lemma PrecededBySnoc(p: seq<Event>, e: Event, earlier: string, later: string)
    requires PrecededBy(p, earlier, later)
    requires e.department == later ==> HasDepartment(p, earlier)
    ensures PrecededBy(p + [e], earlier, later)
  {
    var q := p + [e];
    forall i2 | 0 <= i2 < |q| && q[i2].department == later
      ensures exists i1 :: 0 <= i1 < i2 && q[i1].department == earlier
    {
      if i2 < |p| {
        assert p[i2].department == later;
        var i1 :| 0 <= i1 < i2 && p[i1].department == earlier;
        assert q[i1].department == earlier;
      } else {
        var i1 :| 0 <= i1 < |p| && p[i1].department == earlier;
        assert q[i1].department == earlier;
      }
    }
  }

  /** The department list is in order of first appearance. */
  lemma {:induction false} DepartmentsInFirstAppearanceOrder(events: seq<Event>)
    ensures var ds := Departments(events);
      forall j1, j2 :: 0 <= j1 < j2 < |ds| ==> PrecededBy(events, ds[j1], ds[j2])
  {
    if |events| > 0 {
      var n := |events| - 1;
      var p := events[..n];
      var e := events[n];
      assert events == p + [e];
      DepartmentsInFirstAppearanceOrder(p);
      var pds := Departments(p);
      DepartmentsSnoc(p, e);
      var ds := Departments(events);
      assert |pds| <= |ds| && forall j :: 0 <= j < |pds| ==> ds[j] == pds[j];
      forall j1, j2 | 0 <= j1 < j2 < |ds|
        ensures PrecededBy(events, ds[j1], ds[j2])
      {
        // ds[j1] is a department of the prefix: only the last entry can be new.
        assert ds[j1] == pds[j1] && pds[j1] in pds;
        if j2 < |pds| {
          assert PrecededBy(p, pds[j1], pds[j2]);
          PrecededBySnoc(p, e, ds[j1], ds[j2]);
        } else {
          // the appended department does not occur in the prefix
          assert ds[j2] == e.department && e.department !in pds;
          assert PrecededBy(p, ds[j1], ds[j2]);
          PrecededBySnoc(p, e, ds[j1], ds[j2]);
        }
      }
    }
  }

  function InDept(d: string): Event -> bool
  {
    (e: Event) => e.department == d
  }

  /** The number of events in department `d`. */
  function CountDept(events: seq<Event>, d: string): nat
  {
    |Filter(events, InDept(d))|
  }

  lemma CountDeptSnoc(p: seq<Event>, e: Event, d: string)
    ensures CountDept(p + [e], d) == CountDept(p, d) + (if e.department == d then 1 else 0)
  {
    FilterConcat(p, [e], InDept(d));
    FilterSingle(e, InDept(d));
  }

  lemma CountDeptAbsent(events: seq<Event>, d: string)
    requires !HasDepartment(events, d)
    ensures CountDept(events, d) == 0
  {
    FilterNone(events, InDept(d));
  }

  /** The chart data for a list of departments: each with its event count. */
  function BarsFor(events: seq<Event>, ds: seq<string>): (r: seq<Bar>)
    ensures |r| == |ds|
  {
    seq(|ds|, i requires 0 <= i < |ds| => Bar(ds[i], CountDept(events, ds[i])))
  }

  function Total(bars: seq<Bar>): nat
  {
    if |bars| == 0 then 0 else Total(bars[..|bars| - 1]) + bars[|bars| - 1].value
  }

  /** One more event raises the total over distinct departments by one if its department is listed. */
  lemma {:induction false} TotalSnoc(p: seq<Event>, e: Event, ds: seq<string>)
    requires Distinct(ds)
    ensures Total(BarsFor(p + [e], ds)) == Total(BarsFor(p, ds)) + (if e.department in ds then 1 else 0)
  {
    if |ds| > 0 {
      var m := |ds| - 1;
      BarsForPrefix(p + [e], ds, m);
      BarsForPrefix(p, ds, m);
      TotalSnoc(p, e, ds[..m]);
      CountDeptSnoc(p, e, ds[m]);
      InSnoc(ds, e.department);
    }
  }

  lemma BarsForPrefix(events: seq<Event>, ds: seq<string>, m: nat)
    requires m <= |ds|
    ensures BarsFor(events, ds)[..m] == BarsFor(events, ds[..m])
  {
  }

  /** Membership in a list of distinct names splits into its prefix or its last entry, never both. */
  lemma InSnoc(ds: seq<string>, x: string)
    requires Distinct(ds) && |ds| > 0
    ensures x in ds <==> x in ds[..|ds| - 1] || x == ds[|ds| - 1]
    ensures !(x in ds[..|ds| - 1] && x == ds[|ds| - 1])
  {
    assert ds == ds[..|ds| - 1] + [ds[|ds| - 1]];
  }

  /** The per-department counts add up to the number of events. */
  lemma {:induction false} DepartmentTotals(events: seq<Event>)
    ensures Total(BarsFor(events, Departments(events))) == |events|
  {
    if |events| > 0 {
      var n := |events| - 1;
      var p := events[..n];
      var e := events[n];
      assert events == p + [e];
      DepartmentTotals(p);
      var pds := Departments(p);
      TotalSnoc(p, e, pds);
      if e.department !in pds {
        var ds := pds + [e.department];
        assert BarsFor(events, ds)[..|pds|] == BarsFor(events, pds);
        CountDeptSnoc(p, e, e.department);
        CountDeptAbsent(p, e.department);
      }
    }
  }

  function NamedAs(name: string): Bar -> bool
  {
    (b: Bar) => b.name == name
  }

  lemma DepartmentsSnoc(p: seq<Event>, e: Event)
    ensures Departments(p + [e]) == if e.department in Departments(p) then Departments(p) else Departments(p) + [e.department]
  {
    assert (p + [e])[..|p|] == p;
  }

  /** Bumping the bar of a listed department accounts for one more event of it. */
  lemma BumpStep(p: seq<Event>, e: Event, ds: seq<string>, i: nat)
    requires Distinct(ds) && i < |ds| && ds[i] == e.department
    ensures var acc := BarsFor(p, ds);
      acc[i := acc[i].(value := acc[i].value + 1)] == BarsFor(p + [e], ds)
  {
    var acc := BarsFor(p, ds);
    var bumped := acc[i := acc[i].(value := acc[i].value + 1)];
    var next := BarsFor(p + [e], ds);
    forall j | 0 <= j < |ds|
      ensures bumped[j] == next[j]
    {
      CountDeptSnoc(p, e, ds[j]);
      assert j != i ==> ds[j] != e.department;
    }
    assert bumped == next;
  }

  /** Pushing a bar of 1 for a department new to the events accounts for its first event. */
  lemma PushStep(p: seq<Event>, e: Event, ds: seq<string>)
    requires e.department !in ds && !HasDepartment(p, e.department)
    ensures BarsFor(p, ds) + [Bar(e.department, 1)] == BarsFor(p + [e], ds + [e.department])
  {
    var pushed := BarsFor(p, ds) + [Bar(e.department, 1)];
    var next := BarsFor(p + [e], ds + [e.department]);
    forall j | 0 <= j < |ds|
      ensures pushed[j] == next[j]
    {
      CountDeptSnoc(p, e, ds[j]);
      assert ds[j] in ds;
    }
    CountDeptSnoc(p, e, e.department);
    CountDeptAbsent(p, e.department);
    assert pushed[|ds|] == next[|ds|];
    assert pushed == next;
  }

  /** The department chart's reduce: for each event, bump the entry for its department or push a new one. */
  method DeptData(events: seq<Event>) returns (acc: seq<Bar>)
    ensures acc == BarsFor(events, Departments(events))
    ensures Total(acc) == |events|
  {
    acc := [];
    var k := 0;
    while k < |events|
      invariant 0 <= k <= |events|
      invariant acc == BarsFor(events[..k], Departments(events[..k]))
    {
      var curr := events[k];
      ghost var ds := Departments(events[..k]);
      assert events[..k + 1] == events[..k] + [curr];
      DepartmentsSnoc(events[..k], curr);
      var existing := FindFirst(acc, NamedAs(curr.department));
      if existing.Some? {
        var i := existing.value;
        assert ds[i] == curr.department && ds[i] in ds;
        BumpStep(events[..k], curr, ds, i);
        acc := acc[i := acc[i].(value := acc[i].value + 1)];
      } else {
        assert curr.department !in ds by {
          forall j | 0 <= j < |ds|
            ensures ds[j] != curr.department
          {
            assert !NamedAs(curr.department)(acc[j]);
            assert acc[j].name == ds[j];
          }
        }
        PushStep(events[..k], curr, ds);
        acc := acc + [Bar(curr.department, 1)];
      }
      k := k + 1;
    }
    assert events[..k] == events;
    DepartmentTotals(events);
  }

  // ----- Venue utilisation -----

  /** The first word of a venue name: the name up to its first space, or all of it when there is none. */
  function ShortName(name: string): (r: string)
    ensures |r| <= |name| && r == name[..|r|]
    ensures forall i :: 0 <= i < |r| ==> r[i] != ' '
    ensures |r| < |name| ==> name[|r|] == ' '
  {
    if |name| == 0 || name[0] == ' ' then ""
    else [name[0]] + ShortName(name[1..])
  }

  function ApprovedAt(venueId: string): Event -> bool
  {
    (e: Event) => e.venueId == venueId && e.status == Approved
  }

  /** The number of APPROVED events at a venue; COMPLETED ones are not counted. */
  function VenueUse(events: seq<Event>, venueId: string): (r: nat)
    ensures r <= |Filter(events, StatusIs(Approved))|
    ensures |events| == 0 ==> r == 0
  {
    FilterFilter(events, StatusIs(Approved), (e: Event) => e.venueId == venueId, ApprovedAt(venueId));
    |Filter(events, ApprovedAt(venueId))|
  }

  /** One more event raises a venue's count by one exactly when it is an APPROVED event at that venue. */
  lemma VenueUseSnoc(events: seq<Event>, e: Event, venueId: string)
    ensures VenueUse(events + [e], venueId)
      == VenueUse(events, venueId) + (if e.venueId == venueId && e.status == Approved then 1 else 0)
  {
    FilterConcat(events, [e], ApprovedAt(venueId));
    FilterSingle(e, ApprovedAt(venueId));
  }

  /** The venue chart: one bar per venue, in venue order. */
  function VenueData(events: seq<Event>, venues: seq<Venue>): (r: seq<Bar>)
    ensures |r| == |venues|
    ensures forall i :: 0 <= i < |venues| ==> r[i] == Bar(ShortName(venues[i].name), VenueUse(events, venues[i].id))
    ensures forall i :: 0 <= i < |venues| ==>
      |r[i].name| <= |venues[i].name| && r[i].name == venues[i].name[..|r[i].name|]
      && ' ' !in r[i].name && r[i].value <= |Filter(events, StatusIs(Approved))|
  {
    seq(|venues|, i requires 0 <= i < |venues| => Bar(ShortName(venues[i].name), VenueUse(events, venues[i].id)))
  }

  /**
   * Filing the report of an APPROVED event (ids distinct) takes it out of its
   * venue's bar, which drops by one; every other venue's bar is unchanged.
   */
  lemma ReportLowersVenueUse(st: Snapshot, i: nat, draft: ReportDraft, id: string, now: nat, venues: seq<Venue>)
    requires UniqueIds(st.events) && i < |st.events| && st.events[i].status == Approved
    ensures var after := AttachReport(st, st.events[i].id, draft, id, now).events;
      forall j :: 0 <= j < |venues| ==>
        VenueData(after, venues)[j].value + (if venues[j].id == st.events[i].venueId then 1 else 0)
        == VenueData(st.events, venues)[j].value
  {
    FindsOwnId(st.events, i);
    var after := AttachReport(st, st.events[i].id, draft, id, now).events;
    assert after == st.events[i := after[i]];
    forall j | 0 <= j < |venues|
      ensures VenueUse(after, venues[j].id) + (if venues[j].id == st.events[i].venueId then 1 else 0)
           == VenueUse(st.events, venues[j].id)
    {
      FilterUpdateLength(st.events, i, after[i], ApprovedAt(venues[j].id));
    }
  }

  // ----- Compliance -----

  /** `passedEvents`: the APPROVED or COMPLETED events, the same selection as the reports tab. */
  function PassedEvents(events: seq<Event>): (r: seq<Event>)
    ensures forall e :: e in r <==> e in events && (e.status == Approved || e.status == Completed)
  {
    ReportsTab(events)
  }

  /** `complianceData`: Compliant counts the COMPLETED passed events, Pending the rest. */
  function ComplianceData(events: seq<Event>): (r: seq<Bar>)
    ensures |r| == 2 && r[0].name == "Compliant" && r[1].name == "Pending"
    ensures r[0].value + r[1].value == |PassedEvents(events)|
    ensures r[0].value == |Filter(events, StatusIs(Completed))|
    ensures r[1].value == |Filter(events, StatusIs(Approved))|
  {
    var passed := PassedEvents(events);
    var compliant := |Filter(passed, StatusIs(Completed))|;
    FilterFilter(events, IsPassed, StatusIs(Completed), StatusIs(Completed));
    FilterPartition(events, IsPassed, StatusIs(Completed), StatusIs(Approved), StatusIs(Completed));
    [Bar("Compliant", compliant), Bar("Pending", |passed| - compliant)]
  }
}
