/**
 * The medical timeline page: its events are put, in one pass, into month groups
 * keyed by `${getFullYear()}-${getMonth()}`. A group is created, with its label,
 * by the first event of its month, and later events are pushed onto it. The page
 * shows the groups in the order their keys were first added.
 */
module MonthTimeline {
  import opened Calendar
  import opened Formatting
  import opened Buckets
  import opened Documents

  /** A timeline entry; the icon is presentation and is left out. */
  datatype Event = Event(id: nat, date: Date, title: string, description: string, doctor: string, kind: string)

  /** A month group: its `label` heading and its events. */
  datatype EventGroup = EventGroup(monthLabel: string, events: seq<Event>)

  function KeyFn(): Event -> string {
    (e: Event) => YearMonthIndexKey(e.date)
  }

  /** The six events the page ships with. */
  function SampleEvents(): seq<Event> {
    [ Event(1, CalendarDay(2024, 12, 15), "Blood Test Results", "Complete blood count and lipid panel results received", "Dr. Sarah Johnson", "lab"),
      Event(2, CalendarDay(2024, 12, 12), "Prescription Updated", "New prescription for Amoxicillin 500mg", "Dr. Michael Chen", "prescription"),
      Event(3, CalendarDay(2024, 12, 10), "Annual Physical Examination", "Comprehensive annual health checkup completed", "Dr. Sarah Johnson", "checkup"),
      Event(4, CalendarDay(2024, 12, 8), "Chest X-Ray", "Routine chest X-ray scan - results normal", "Dr. Robert Kim", "scan"),
      Event(5, CalendarDay(2024, 12, 1), "Follow-up Consultation", "Follow-up visit for previous symptoms", "Dr. Michael Chen", "consultation"),
      Event(6, CalendarDay(2024, 11, 25), "Lab Work - Thyroid Function", "TSH and T4 levels testing", "Dr. Sarah Johnson", "lab") ]
  }

  /**
   * What the reduce builds from `events`: the keys in the order they were first
   * added, a group for exactly those keys, each holding the events of its key in
   * input order, and labelled after the first of them.
   */
  ghost predicate GroupedAs(events: seq<Event>, order: seq<string>, groups: map<string, EventGroup>) {
    && order == FirstKeys(events, KeyFn())
    && (forall k :: k in groups <==> k in order)
    && (forall k :: k in groups ==>
          && groups[k].events == Members(events, KeyFn(), k)
          && groups[k].events != []
          && groups[k].monthLabel == MonthYearLabel(groups[k].events[0].date))
  }

  /** The `reduce` over the events, with the accumulator object as a map and its key order. */
  method GroupEvents(events: seq<Event>) returns (order: seq<string>, groups: map<string, EventGroup>)
    ensures GroupedAs(events, order, groups)
  {
    order, groups := [], map[];
    ghost var seen: seq<Event> := [];
    for i := 0 to |events|
      invariant seen == events[..i]
      invariant GroupedAs(seen, order, groups)
    {
      PrefixStep(events, i);
      seen, order, groups := Push(seen, events[i], order, groups);
    }
    assert seen == events;
  }

  /** One pass of the reducer: the event goes onto its month's group, created (and ordered) first if new. */
  method Push(ghost prefix: seq<Event>, event: Event, order: seq<string>, groups: map<string, EventGroup>)
    returns (ghost prefix': seq<Event>, order': seq<string>, groups': map<string, EventGroup>)
    requires GroupedAs(prefix, order, groups)
    ensures prefix' == prefix + [event]
    ensures GroupedAs(prefix', order', groups')
  {
    prefix' := prefix + [event];
    order', groups' := order, groups;
    var yearMonth := YearMonthIndexKey(event.date);
    if yearMonth !in groups' {
      groups' := groups'[yearMonth := EventGroup(MonthYearLabel(event.date), [])];
      order' := order' + [yearMonth];
    }
    groups' := groups'[yearMonth := groups'[yearMonth].(events := groups'[yearMonth].events + [event])];
    PushKeepsGrouping(prefix, event, order, groups, order', groups');
  }

  /** One step of the reduce keeps the accumulator what `GroupedAs` says it is. */
  lemma PushKeepsGrouping(prefix: seq<Event>, e: Event, order: seq<string>, groups: map<string, EventGroup>,
                          order': seq<string>, groups': map<string, EventGroup>)
    requires GroupedAs(prefix, order, groups)
    requires var k := YearMonthIndexKey(e.date);
      var g := if k in groups then groups[k] else EventGroup(MonthYearLabel(e.date), []);
      && order' == (if k in groups then order else order + [k])
      && groups' == groups[k := g.(events := g.events + [e])]
    ensures GroupedAs(prefix + [e], order', groups')
  {
    var k := YearMonthIndexKey(e.date);
    var g := if k in groups then groups[k] else EventGroup(MonthYearLabel(e.date), []);
    FirstKeysSnoc(prefix, e, KeyFn());
    assert order' == FirstKeys(prefix + [e], KeyFn());
    forall j | j in groups'
      ensures groups'[j].events == Members(prefix + [e], KeyFn(), j)
      ensures groups'[j].events != [] && groups'[j].monthLabel == MonthYearLabel(groups'[j].events[0].date)
    {
      MembersSnoc(prefix, e, KeyFn(), j);
      if j == k {
        PushEntry(prefix, e, order, groups, k, g);
      } else {
        assert groups'[j] == groups[j];
      }
    }
  }

  /** The group an event is pushed onto: its old events and the event, under the label it had or gets now. */
  lemma PushEntry(prefix: seq<Event>, e: Event, order: seq<string>, groups: map<string, EventGroup>,
                  k: string, g: EventGroup)
    requires GroupedAs(prefix, order, groups)
    requires k == YearMonthIndexKey(e.date)
    requires g == if k in groups then groups[k] else EventGroup(MonthYearLabel(e.date), [])
    ensures g.events == Members(prefix, KeyFn(), k)
    ensures var g' := g.(events := g.events + [e]);
      g'.events != [] && g'.monthLabel == MonthYearLabel(g'.events[0].date)
  {
    if k !in groups {
      NewKeyEmpty(prefix, k);
    }
  }

  /** A key that has not been added yet has no events. */
  lemma NewKeyEmpty(prefix: seq<Event>, k: string)
    requires k !in FirstKeys(prefix, KeyFn())
    ensures Members(prefix, KeyFn(), k) == []
  {
    MembersMeaning(prefix, KeyFn(), k);
    FirstKeysCover(prefix, KeyFn());
  }

  // ---------------------------------------------------------------- properties

  /** Two events share a group exactly when they fall in the same calendar month. */
  lemma SameGroupIffSameMonth(a: Event, b: Event)
    ensures KeyFn()(a) == KeyFn()(b) <==> IsSameMonth(a.date, b.date)
  {
    YearMonthIndexKeyMeaning(a.date, b.date);
  }

  /**
   * Every event is in the group of its key and in no other; the groups hold only
   * events of the input, and the keys are listed once each.
   */
  lemma EachEventInOneGroup(events: seq<Event>, order: seq<string>, groups: map<string, EventGroup>)
    requires GroupedAs(events, order, groups)
    ensures Distinct(order)
    ensures forall e :: e in events ==> KeyFn()(e) in groups && e in groups[KeyFn()(e)].events
    ensures forall e, k :: k in groups && e in groups[k].events ==> e in events && k == KeyFn()(e)
  {
    FirstKeysDistinct(events, KeyFn());
    FirstKeysCover(events, KeyFn());
    forall k | k in groups
      ensures forall e :: e in groups[k].events <==> e in events && KeyFn()(e) == k
    {
      MembersMeaning(events, KeyFn(), k);
    }
    forall e | e in events
      ensures KeyFn()(e) in groups
    {
      var i :| 0 <= i < |events| && events[i] == e;
    }
  }

  /** The groups hold as many events between them as the page was given. */
  lemma TotalEvents(events: seq<Event>, order: seq<string>, groups: map<string, EventGroup>)
    requires GroupedAs(events, order, groups)
    ensures TotalSize(events, KeyFn(), order) == |events|
  {
    FirstKeysDistinct(events, KeyFn());
    FirstKeysCover(events, KeyFn());
    PartitionSize(events, KeyFn(), order);
  }

  /**
   * The label the first event gave its group is the one every event of the group
   * would have given it: the month and year the group stands for.
   */
  lemma LabelFitsEveryEvent(events: seq<Event>, order: seq<string>, groups: map<string, EventGroup>, k: string, e: Event)
    requires GroupedAs(events, order, groups)
    requires k in groups && e in groups[k].events
    ensures groups[k].monthLabel == MonthYearLabel(e.date)
  {
    MembersMeaning(events, KeyFn(), k);
    var first := groups[k].events[0];
    SameGroupIffSameMonth(first, e);
  }

  /** The groups are shown in the order their months first occur. */
  lemma ShownInFirstOccurrenceOrder(events: seq<Event>, order: seq<string>, groups: map<string, EventGroup>, a: nat, b: nat)
    requires GroupedAs(events, order, groups)
    requires a < b < |order|
    ensures OccursBefore(events, KeyFn(), order[a], order[b])
  {
    FirstKeysOrder(events, KeyFn(), a, b);
  }

  /** The shipped events make two groups: December 2024 with five events, then November 2024 with one. */
  lemma SampleGroups()
    ensures var events := SampleEvents();
      && FirstKeys(events, KeyFn()) == [KeyFn()(events[0]), KeyFn()(events[5])]
      && Members(events, KeyFn(), KeyFn()(events[0])) == events[..5]
      && Members(events, KeyFn(), KeyFn()(events[5])) == [events[5]]
  {
    var events := SampleEvents();
    assert forall i :: 0 <= i < 5 ==> IsSameMonth(events[i].date, events[0].date);
    FiveThenOne(events);
  }

  /** Five events of one month followed by one of another month make two groups of five and one. */
  lemma FiveThenOne(events: seq<Event>)
    requires |events| == 6
    requires forall i :: 0 <= i < 5 ==> IsSameMonth(events[i].date, events[0].date)
    requires !IsSameMonth(events[5].date, events[0].date)
    ensures FirstKeys(events, KeyFn()) == [KeyFn()(events[0]), KeyFn()(events[5])]
    ensures Members(events, KeyFn(), KeyFn()(events[0])) == events[..5]
    ensures Members(events, KeyFn(), KeyFn()(events[5])) == [events[5]]
  {
    var december, november := events[..5], events[5];
    assert events == december + [november];
    forall i | 0 <= i < 5
      ensures KeyFn()(december[i]) == KeyFn()(events[0])
    {
      SameGroupIffSameMonth(december[i], events[0]);
    }
    SameGroupIffSameMonth(november, events[0]);
    RunThenNewKey(december, november, KeyFn(), KeyFn()(events[0]));
  }
}
